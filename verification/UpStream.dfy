/** One scrape over its data sources: the dispatch by name, and one `up` metric per source. */
module UpStream {
  import opened Results
  import opened Text
  import opened Metrics
  import opened DataSources
  import opened PrefetchCache

  datatype Config = Config(isHWBroker: bool, defaultVpn: string)

  /** What a getter does: it sends metrics and returns, or panics part of the way. */
  datatype Reply = Returns(sent: seq<Metric>, up: real, err: Option<string>) | Panics(sent: seq<Metric>)

  datatype Gate = Always | SoftwareOnly | HardwareOnly | PerVpn | Unknown

  const BROKER_TARGETS: seq<string> := [
    "Version", "Memory", "Interface", "GlobalStats", "GlobalSystemInfo", "Spool", "SpoolStats", "Redundancy",
    "ReplicationStats", "ConfigSyncRouter", "ConfigSync"]

  const VPN_TARGETS: seq<string> := [
    "Vpn", "VpnReplication", "ConfigSyncVpn", "Bridge", "BridgeRemote", "BridgeDetail", "BridgeClientCert", "VpnSpool",
    "ClusterLinks", "VpnStats", "BridgeStats"]

  const CLIENT_TARGETS: seq<string> := [
    "Client", "ClientProfile", "ClientSlowSubscriber", "ClientStats", "ClientConnections", "ClientMessageSpoolStats",
    "ClientMessageSpoolEgress"]

  const ENDPOINT_TARGETS: seq<string> := [
    "QueueRates", "QueueStats", "QueueDetails", "TopicEndpointRates", "TopicEndpointStats", "TopicEndpointDetails",
    "RestConsumerStats", "RdpStats", "RdpInfo"]

  const SOFTWARE_ONLY: seq<string> := ["Health", "StorageElement"]

  const HARDWARE_ONLY: seq<string> := [
    "Disk", "Raid", "InterfaceHW", "Alarm", "Environment", "Hardware", "ClockDetail"]

  predicate OneOf(name: string, names: seq<string>) {
    names != [] && (name == names[|names| - 1] || OneOf(name, names[..|names| - 1]))
  }

  /** A name without the suffix `V1`. */
  function Plain(name: string): string {
    if |name| >= 2 && name[|name| - 2..] == "V1" then name[..|name| - 2] else name
  }

  function TableGate(plain: string): Gate {
    if OneOf(plain, BROKER_TARGETS) || OneOf(plain, VPN_TARGETS) then Always
    else if OneOf(plain, CLIENT_TARGETS) || OneOf(plain, ENDPOINT_TARGETS) then Always
    else if OneOf(plain, SOFTWARE_ONLY) then SoftwareOnly
    else if OneOf(plain, HARDWARE_ONLY) then HardwareOnly
    else Unknown
  }

  /** The switch on the name: every target may carry the suffix `V1`, except for the two listed first. */
  function GateOf(name: string): Gate {
    if name == "QueueStatsV2" then PerVpn
    else if name == "MqttSession" then Always
    else TableGate(Plain(name))
  }

  const HINT := "\". Please check documentation for valid targets."
  const NO_DEFAULT_VPN :=
    "can't scrape Semp2 As vpnFilter was an * given and the defaultVpn is not set in configuration"

  function GetVpnName(config: Config, vpnFilter: string): Result<string, string> {
    if vpnFilter == "*" then
      if Blank(config.defaultVpn) then Err(NO_DEFAULT_VPN) else Ok(config.defaultVpn)
    else Ok(vpnFilter)
  }

  function RefusalText(kind: string, name: string): string {
    kind + " scrape target: \"" + name + HINT
  }

  /** Whether a source is refused before its getter is called, and why. */
  function Refusal(config: Config, ds: DataSource): Option<string> {
    match GateOf(ds.name)
    case Always => None
    case SoftwareOnly => if config.isHWBroker then Some(RefusalText("Software only", ds.name)) else None
    case HardwareOnly => if !config.isHWBroker then Some(RefusalText("Hardware only", ds.name)) else None
    case PerVpn => if GetVpnName(config, ds.vpnFilter).Err? then Some(NO_DEFAULT_VPN) else None
    case Unknown => Some(RefusalText("Unknown", ds.name))
  }

  /** What becomes of one source, by itself: refused sources send nothing and count as zero. */
  function Result(config: Config, ds: DataSource, reply: Reply): Reply {
    match Refusal(config, ds)
    case Some(why) => Returns([], 0.0, Some(why))
    case None => reply
  }

  const UP := Desc("solace_up", "NOT_SEMP_V2_READY", ["error", "endpoint"])

  function UpMetric(utf8: string -> bool, name: string, up: real, err: Option<string>): Option<Metric> {
    if up < 1.0 then
      NewMetric(utf8, UP, GaugeValue, 0.0,
                [if err.Some? then err.value else "Unknown", if up < 0.0 then "global" else name])
    else NewMetric(utf8, UP, GaugeValue, 1.0, ["", name])
  }

  /* ---------- which sources are served ---------- */

  /** The name is one of these targets, with or without the suffix. */
  predicate Named(name: string, targets: seq<string>) {
    exists t :: t in targets && (name == t || name == t + "V1")
  }

  predicate Served(name: string) {
    || name == "MqttSession"
    || Named(name, BROKER_TARGETS) || Named(name, VPN_TARGETS)
    || Named(name, CLIENT_TARGETS) || Named(name, ENDPOINT_TARGETS)
  }

  predicate NeedsSoftware(name: string) {
    Named(name, ["Health", "StorageElement"])
  }

  predicate NeedsHardware(name: string) {
    Named(name, ["Disk", "Raid", "InterfaceHW", "Alarm", "Environment", "Hardware", "ClockDetail"])
  }

  function Refused(why: string): Reply {
    Returns([], 0.0, Some(why))
  }

  /** What comes of one source: its getter's reply is passed through, or it is refused, sends nothing and counts as
      zero, with an error of its own. */
  ghost predicate Decides(config: Config, ds: DataSource, reply: Reply, outcome: Reply) {
    && (Served(ds.name) ==> outcome == reply)
    && (NeedsSoftware(ds.name) ==>
          outcome == if config.isHWBroker then Refused(RefusalText("Software only", ds.name)) else reply)
    && (NeedsHardware(ds.name) ==>
          outcome == if config.isHWBroker then reply else Refused(RefusalText("Hardware only", ds.name)))
    && (ds.name == "QueueStatsV2" ==>
          outcome == if ds.vpnFilter != "*" || !Blank(config.defaultVpn) then reply else Refused(NO_DEFAULT_VPN))
    && (!Served(ds.name) && !NeedsSoftware(ds.name) && !NeedsHardware(ds.name) && ds.name != "QueueStatsV2" ==>
          outcome == Refused(RefusalText("Unknown", ds.name)))
  }

  lemma {:induction false} OneOfIsIn(name: string, names: seq<string>)
    ensures OneOf(name, names) <==> name in names
  {
    if names != [] {
      OneOfIsIn(name, names[..|names| - 1]);
      assert names == names[..|names| - 1] + [names[|names| - 1]];
    }
  }

  /** Length, first and third letter tell the restricted targets from all others and from each other. */
  function Kind(t: string): Gate
    requires |t| >= 3
  {
    match (|t|, t[0], t[2])
    case (6, 'H', 'a') => SoftwareOnly
    case (14, 'S', 'o') => SoftwareOnly
    case (4, 'D', 's') => HardwareOnly
    case (4, 'R', 'i') => HardwareOnly
    case (11, 'I', 't') => HardwareOnly
    case (5, 'A', 'a') => HardwareOnly
    case (11, 'E', 'v') => HardwareOnly
    case (8, 'H', 'r') => HardwareOnly
    case (11, 'C', 'o') => HardwareOnly
    case (11, 'M', 't') => Unknown
    case _ => Always
  }

  /** No target's own name ends in a digit. */
  predicate HasKind(t: string, kind: Gate) {
    |t| >= 3 && t[|t| - 1] != '1' && t[|t| - 1] != '2' && Kind(t) == kind
  }

  lemma BrokerKind(t: string)
    requires t in BROKER_TARGETS
    ensures HasKind(t, Always)
  {
  }

  lemma VpnKind(t: string)
    requires t in VPN_TARGETS
    ensures HasKind(t, Always)
  {
  }

  lemma ClientKind(t: string)
    requires t in CLIENT_TARGETS
    ensures HasKind(t, Always)
  {
  }

  lemma EndpointKind(t: string)
    requires t in ENDPOINT_TARGETS
    ensures HasKind(t, Always)
  {
  }

  lemma SoftwareKind(t: string)
    requires t in SOFTWARE_ONLY
    ensures HasKind(t, SoftwareOnly)
  {
  }

  lemma HardwareKind(t: string)
    requires t in HARDWARE_ONLY
    ensures HasKind(t, HardwareOnly)
  {
  }

  predicate InAlways(t: string) {
    t in BROKER_TARGETS || t in VPN_TARGETS || t in CLIENT_TARGETS || t in ENDPOINT_TARGETS
  }

  lemma InTable(t: string)
    ensures InAlways(t) ==> HasKind(t, Always)
    ensures t in SOFTWARE_ONLY ==> HasKind(t, SoftwareOnly)
    ensures t in HARDWARE_ONLY ==> HasKind(t, HardwareOnly)
  {
    if t in BROKER_TARGETS {
      BrokerKind(t);
    } else if t in VPN_TARGETS {
      VpnKind(t);
    } else if t in CLIENT_TARGETS {
      ClientKind(t);
    } else if t in ENDPOINT_TARGETS {
      EndpointKind(t);
    }
    if t in SOFTWARE_ONLY {
      SoftwareKind(t);
    }
    if t in HARDWARE_ONLY {
      HardwareKind(t);
    }
  }

  /** The four groups of targets are disjoint, so the order in which they are looked up does not matter. */
  lemma TableGateIs(t: string)
    ensures TableGate(t) == Always <==> InAlways(t)
    ensures TableGate(t) == SoftwareOnly <==> t in SOFTWARE_ONLY
    ensures TableGate(t) == HardwareOnly <==> t in HARDWARE_ONLY
  {
    OneOfIsIn(t, BROKER_TARGETS);
    OneOfIsIn(t, VPN_TARGETS);
    OneOfIsIn(t, CLIENT_TARGETS);
    OneOfIsIn(t, ENDPOINT_TARGETS);
    OneOfIsIn(t, SOFTWARE_ONLY);
    OneOfIsIn(t, HARDWARE_ONLY);
    InTable(t);
  }

  /** The suffix comes off exactly where it was put on. */
  lemma PlainIs(name: string, t: string)
    requires |t| >= 3 && t[|t| - 1] != '1'
    ensures Plain(name) == t <==> name == t || name == t + "V1"
  {
    if name == t + "V1" {
      assert name[|name| - 2..] == "V1" && name[..|name| - 2] == t;
    }
    if name == t {
      assert "V1"[1] == '1' && (|t| >= 2 ==> t[|t| - 2..][1] == t[|t| - 1]);
    }
    if Plain(name) == t && name != t {
      assert name == name[..|name| - 2] + name[|name| - 2..];
    }
  }

  /** The two names that are not looked up are those of no target, with or without the suffix. */
  lemma NotSpecial(name: string, t: string)
    requires |t| >= 3 && t[|t| - 1] != '1' && t[|t| - 1] != '2' && Kind(t) != Unknown
    requires name == t || name == t + "V1"
    ensures name != "QueueStatsV2" && name != "MqttSession"
  {
    assert "QueueStatsV2"[|"QueueStatsV2"| - 1] == '2' && "MqttSession"[|"MqttSession"| - 1] == 'n';
    assert "MqttSession"[0] == 'M' && "MqttSession"[2] == 't' && |"MqttSession"| == 11;
    assert (t + "V1")[|t| + 1] == '1';
  }

  lemma NamedGate(name: string, targets: seq<string>, gate: Gate)
    requires gate != PerVpn && gate != Unknown
    requires forall t :: t in targets ==> TableGate(t) == gate && HasKind(t, gate)
    ensures Named(name, targets) ==> GateOf(name) == gate && name != "QueueStatsV2" && name != "MqttSession"
    ensures GateOf(name) == gate && name != "MqttSession" && Plain(name) in targets ==> Named(name, targets)
  {
    if t :| t in targets && (name == t || name == t + "V1") {
      PlainIs(name, t);
      NotSpecial(name, t);
    }
    if Plain(name) in targets {
      PlainIs(name, Plain(name));
    }
  }

  lemma GateDecides(name: string)
    ensures GateOf(name) == Always <==> Served(name)
    ensures GateOf(name) == SoftwareOnly <==> NeedsSoftware(name)
    ensures GateOf(name) == HardwareOnly <==> NeedsHardware(name)
    ensures GateOf(name) == PerVpn <==> name == "QueueStatsV2"
  {
    forall t
      ensures TableGate(t) == Always <==> InAlways(t)
      ensures TableGate(t) == SoftwareOnly <==> t in SOFTWARE_ONLY
      ensures TableGate(t) == HardwareOnly <==> t in HARDWARE_ONLY
      ensures TableGate(t) != Unknown ==> HasKind(t, TableGate(t))
    {
      TableGateIs(t);
      InTable(t);
    }
    NamedGate(name, BROKER_TARGETS, Always);
    NamedGate(name, VPN_TARGETS, Always);
    NamedGate(name, CLIENT_TARGETS, Always);
    NamedGate(name, ENDPOINT_TARGETS, Always);
    NamedGate(name, SOFTWARE_ONLY, SoftwareOnly);
    NamedGate(name, HARDWARE_ONLY, HardwareOnly);
  }

  lemma ResultDecides(config: Config, ds: DataSource, reply: Reply)
    ensures Decides(config, ds, reply, Result(config, ds, reply))
  {
    GateDecides(ds.name);
  }

  /** One round of the scrape: what it adds to the stream, its `up` value, and whether it panics. */
  datatype Round = Round(sent: seq<Metric>, up: real, panicked: bool)
  {
    /** The scrape does not go past this round. */
    predicate Stops() {
      panicked || up < 0.0
    }
  }

  function RoundOf(utf8: string -> bool, config: Config, ds: DataSource, reply: Reply): Round {
    match Result(config, ds, reply)
    case Panics(sent) => Round(sent, 0.0, true)
    case Returns(sent, up, err) =>
      match UpMetric(utf8, ds.name, up, err)
      case None => Round(sent, up, true)
      case Some(m) => Round(sent + [m], up, false)
  }

  /** The rounds of all sources, each by itself. */
  function Rounds(utf8: string -> bool, config: Config, sources: seq<DataSource>, replies: seq<Reply>)
    : (rounds: seq<Round>)
    requires |sources| == |replies|
    ensures |rounds| == |sources|
  {
    seq(|sources|, i requires 0 <= i < |sources| => RoundOf(utf8, config, sources[i], replies[i]))
  }

  /** The stream of the first n rounds. */
  function Sent(rounds: seq<Round>, n: nat): seq<Metric>
    requires n <= |rounds|
  {
    if n == 0 then [] else Sent(rounds, n - 1) + rounds[n - 1].sent
  }

  /** The switch of the source: `up` and `err` arrive holding the previous source's result. `vpnName` is what the v2
      queue getter is asked for, if it is called: the filter itself, or the default VPN for a wildcard. */
  method Dispatch(config: Config, ds: DataSource, reply: Reply, previousUp: real, previousErr: Option<string>)
    returns (sent: seq<Metric>, up: real, err: Option<string>, panicked: bool, vpnName: Option<string>)
    ensures vpnName.Some? <==> ds.name == "QueueStatsV2" && (ds.vpnFilter != "*" || !Blank(config.defaultVpn))
    ensures vpnName.Some? ==> vpnName.value == if ds.vpnFilter == "*" then config.defaultVpn else ds.vpnFilter
    ensures (if panicked then Panics(sent) else Returns(sent, up, err)) == Result(config, ds, reply)
    ensures Decides(config, ds, reply, if panicked then Panics(sent) else Returns(sent, up, err))
  {
    ResultDecides(config, ds, reply);
    GateDecides(ds.name);
    sent, up, err, panicked, vpnName := [], previousUp, previousErr, false, None;
    var call := false;
    match GateOf(ds.name) {
      case Always =>
        call := true;
      case SoftwareOnly =>
        if !config.isHWBroker {
          call := true;
        } else {
          up, err := 0.0, Some(RefusalText("Software only", ds.name));
        }
      case HardwareOnly =>
        if config.isHWBroker {
          call := true;
        } else {
          up, err := 0.0, Some(RefusalText("Hardware only", ds.name));
        }
      case PerVpn =>
        up := 0.0;
        var vpn := GetVpnName(config, ds.vpnFilter);
        if vpn.Err? {
          err := Some(vpn.error);
        } else {
          vpnName := Some(vpn.value);
          call := true;
        }
      case Unknown =>
        up, err := 0.0, Some(RefusalText("Unknown", ds.name));
    }
    if call {
      sent := reply.sent;
      match reply
      case Panics(_) => panicked := true;
      case Returns(_, u, e) => up, err := u, e;
    }
  }

  method Report(utf8: string -> bool, name: string, up: real, err: Option<string>) returns (metric: Option<Metric>)
    ensures metric == UpMetric(utf8, name, up, err)
  {
    var endpoint := name;
    if up < 1.0 {
      if up < 0.0 {
        endpoint := "global";
      }
      if err.Some? {
        metric := NewMetric(utf8, UP, GaugeValue, 0.0, [err.value, endpoint]);
      } else {
        metric := NewMetric(utf8, UP, GaugeValue, 0.0, ["Unknown", endpoint]);
      }
    } else {
      metric := NewMetric(utf8, UP, GaugeValue, 1.0, ["", endpoint]);
    }
  }

  /** One round of the loop, given the result the round before left behind. */
  method ScrapeSource(
    utf8: string -> bool, config: Config, sources: seq<DataSource>, replies: seq<Reply>, i: nat,
    previousUp: real, previousErr: Option<string>)
    returns (sent: seq<Metric>, up: real, err: Option<string>, panicked: bool)
    requires i < |sources| == |replies|
    ensures var r := Rounds(utf8, config, sources, replies)[i];
      r.sent == sent && r.panicked == panicked && (!panicked ==> r.up == up)
  {
    var vpnName;
    sent, up, err, panicked, vpnName := Dispatch(config, sources[i], replies[i], previousUp, previousErr);
    if panicked {
      return;
    }
    var metric := Report(utf8, sources[i].name, up, err);
    if metric.None? {
      panicked := true;
      return;
    }
    sent := sent + [metric.value];
  }

  /** The scrape sent the first n rounds and none of them stopped it. */
  ghost predicate WentOn(rounds: seq<Round>, n: nat, ch: seq<Metric>) {
    n <= |rounds| && ch == Sent(rounds, n) && forall i :: 0 <= i < n ==> !rounds[i].Stops()
  }

  /** The scrape sent the first n rounds: they are all there are, or the last of them is the first that stops it. */
  ghost predicate Ended(rounds: seq<Round>, n: nat, ch: seq<Metric>, panicked: bool) {
    && n <= |rounds|
    && ch == Sent(rounds, n)
    && (forall i :: 0 <= i < n - 1 ==> !rounds[i].Stops())
    && (n < |rounds| ==> n > 0 && rounds[n - 1].Stops())
    && (panicked <==> n > 0 && rounds[n - 1].panicked)
  }

  lemma OneMoreRound(rounds: seq<Round>, n: nat, ch: seq<Metric>)
    requires WentOn(rounds, n, ch) && n < |rounds|
    ensures rounds[n].Stops() ==> Ended(rounds, n + 1, ch + rounds[n].sent, rounds[n].panicked)
    ensures !rounds[n].Stops() ==> WentOn(rounds, n + 1, ch + rounds[n].sent)
  {
  }

  lemma AllRounds(rounds: seq<Round>, ch: seq<Metric>)
    requires WentOn(rounds, |rounds|, ch)
    ensures Ended(rounds, |rounds|, ch, false)
  {
  }

  /** The body of the loop: the stream grows by the round of the next source, and either goes on or has ended. */
  method SendRound(
    utf8: string -> bool, config: Config, sources: seq<DataSource>, replies: seq<Reply>, n: nat, ch: seq<Metric>,
    previousUp: real, previousErr: Option<string>, ghost rounds: seq<Round>)
    returns (more: seq<Metric>, up: real, err: Option<string>, panicked: bool)
    requires n < |sources| == |replies| && rounds == Rounds(utf8, config, sources, replies) && WentOn(rounds, n, ch)
    ensures panicked || up < 0.0 ==> Ended(rounds, n + 1, more, panicked)
    ensures !panicked && up >= 0.0 ==> WentOn(rounds, n + 1, more)
  {
    OneMoreRound(rounds, n, ch);
    var sent;
    sent, up, err, panicked := ScrapeSource(utf8, config, sources, replies, n, previousUp, previousErr);
    more := ch + sent;
  }

  /** The loop of the source, whose `up` and `err` outlive each round. The stream is the concatenation of the rounds of
      the processed sources, each by itself, and these are the sources up to the first that stops the scrape. */
  method CollectPrometheusMetric(utf8: string -> bool, config: Config, sources: seq<DataSource>, replies: seq<Reply>)
    returns (ch: seq<Metric>, panicked: bool, processed: nat)
    requires |sources| == |replies|
    ensures Ended(Rounds(utf8, config, sources, replies), processed, ch, panicked)
  {
    ghost var rounds := Rounds(utf8, config, sources, replies);
    ch, panicked, processed := [], false, 0;
    var up: real := 0.0;
    var err: Option<string> := None;
    while processed < |sources|
      invariant WentOn(rounds, processed, ch) && !panicked
    {
      ch, up, err, panicked := SendRound(utf8, config, sources, replies, processed, ch, up, err, rounds);
      processed := processed + 1;
      if panicked || up < 0.0 {
        return;
      }
    }
    AllRounds(rounds, ch);
  }

  /** The `up` metric that closes a source's segment tells that source's own result: one for up, zero otherwise with its
      own error or "Unknown", under its own name, or under `global` for a negative result. */
  lemma UpTellsOwnResult(utf8: string -> bool, config: Config, ds: DataSource, reply: Reply)
    requires !RoundOf(utf8, config, ds, reply).panicked
    ensures var r, segment := Result(config, ds, reply), RoundOf(utf8, config, ds, reply).sent;
      && r.Returns? && |segment| == |r.sent| + 1 && segment[..|r.sent|] == r.sent
      && segment[|r.sent|].desc == UP && UP.fqName == "solace_up" && UP.variableLabels == ["error", "endpoint"]
      && segment[|r.sent|].valueType == GaugeValue
      && (segment[|r.sent|].value == 1.0 <==> r.up >= 1.0)
      && (segment[|r.sent|].value == 0.0 <==> r.up < 1.0)
      && segment[|r.sent|].labelValues[0] ==
         (if r.up >= 1.0 then "" else if r.err.Some? then r.err.value else "Unknown")
      && (segment[|r.sent|].labelValues[1] == "global" <==> r.up < 0.0 || ds.name == "global")
      && (r.up >= 0.0 ==> segment[|r.sent|].labelValues[1] == ds.name)
  {
  }

  /** A round panics exactly if the getter does or a label of its `up` metric is not valid text. */
  lemma RoundPanicsIff(utf8: string -> bool, config: Config, ds: DataSource, reply: Reply)
    ensures RoundOf(utf8, config, ds, reply).panicked <==>
      match Result(config, ds, reply)
      case Panics(_) => true
      case Returns(_, up, err) =>
        || !utf8(if up >= 1.0 then "" else if err.Some? then err.value else "Unknown")
        || !utf8(if up < 0.0 then "global" else ds.name)
  {
    match Result(config, ds, reply)
    case Panics(_) =>
    case Returns(_, up, err) =>
      var error := if up >= 1.0 then "" else if err.Some? then err.value else "Unknown";
      var endpoint := if up < 0.0 then "global" else ds.name;
      assert error == [error, endpoint][0] && endpoint == [error, endpoint][1];
      assert [error, endpoint] ==
        if up < 1.0 then [if err.Some? then err.value else "Unknown", endpoint] else ["", ds.name];
  }

  /** A failed request of the v1 queue getter, whose result is then negative, stops the scrape. */
  lemma FailedRequestStops(utf8: string -> bool, config: Config, ds: DataSource, sent: seq<Metric>, error: string)
    requires ds.name == "QueueStats" || ds.name == "QueueStatsV1"
    ensures RoundOf(utf8, config, ds, Returns(sent, -1.0, Some(error))).Stops()
  {
    assert "QueueStats" in ENDPOINT_TARGETS by {
      assert ENDPOINT_TARGETS[1] == "QueueStats";
    }
    assert ds.name == "QueueStatsV1" ==> ds.name == "QueueStats" + "V1";
    assert Named(ds.name, ENDPOINT_TARGETS);
    ResultDecides(config, ds, Returns(sent, -1.0, Some(error)));
  }

  function CountUps(ms: seq<Metric>): nat {
    if ms == [] then 0 else CountUps(ms[..|ms| - 1]) + (if ms[|ms| - 1].desc == UP then 1 else 0)
  }

  lemma {:induction false} CountUpsConcat(a: seq<Metric>, b: seq<Metric>)
    ensures CountUps(a + b) == CountUps(a) + CountUps(b)
  {
    if b == [] {
      assert a + b == a;
    } else {
      assert (a + b)[..|a + b| - 1] == a + b[..|b| - 1];
      CountUpsConcat(a, b[..|b| - 1]);
    }
  }

  lemma {:induction false} NoUps(ms: seq<Metric>)
    requires forall i :: 0 <= i < |ms| ==> ms[i].desc != UP
    ensures CountUps(ms) == 0
  {
    if ms != [] {
      NoUps(ms[..|ms| - 1]);
    }
  }

  /** A getter of its own sends no `up` metric. */
  ghost predicate SendsNoUp(reply: Reply) {
    forall i :: 0 <= i < |reply.sent| ==> reply.sent[i].desc != UP
  }

  function UpsOf(round: Round): nat {
    if round.panicked then 0 else 1
  }

  lemma RoundHasOneUp(utf8: string -> bool, config: Config, ds: DataSource, reply: Reply)
    requires SendsNoUp(reply)
    ensures var round := RoundOf(utf8, config, ds, reply); CountUps(round.sent) == UpsOf(round)
  {
    var round := RoundOf(utf8, config, ds, reply);
    var own := Result(config, ds, reply).sent;
    NoUps(own);
    if !round.panicked {
      UpTellsOwnResult(utf8, config, ds, reply);
      assert round.sent[..|round.sent| - 1] == own;
    }
  }

  lemma {:induction false} UpsAddUp(rounds: seq<Round>, n: nat)
    requires n <= |rounds| && forall i :: 0 <= i < n ==> CountUps(rounds[i].sent) == UpsOf(rounds[i])
    requires forall i :: 0 <= i < n ==> !rounds[i].panicked
    ensures CountUps(Sent(rounds, n)) == n
  {
    if n > 0 {
      UpsAddUp(rounds, n - 1);
      CountUpsConcat(Sent(rounds, n - 1), rounds[n - 1].sent);
    }
  }

  /** Exactly one `up` metric per round a scrape has gone through, but for a last one that panicked. */
  lemma OneUpPerRound(rounds: seq<Round>, n: nat, ch: seq<Metric>, panicked: bool)
    requires Ended(rounds, n, ch, panicked)
    requires forall i :: 0 <= i < n ==> CountUps(rounds[i].sent) == UpsOf(rounds[i])
    ensures CountUps(ch) == n - (if panicked then 1 else 0)
  {
    if n > 0 {
      assert forall i :: 0 <= i < n - 1 ==> !rounds[i].Stops();
      UpsAddUp(rounds, n - 1);
      CountUpsConcat(Sent(rounds, n - 1), rounds[n - 1].sent);
    }
  }

  /** So for getters that send none themselves: whatever the sources and replies, the stream of a scrape has exactly one
      `up` metric per processed source, and none for one that panicked. */
  lemma OneUpPerSource(utf8: string -> bool, config: Config, sources: seq<DataSource>, replies: seq<Reply>,
                       processed: nat, ch: seq<Metric>, panicked: bool)
    requires |sources| == |replies| && forall i :: 0 <= i < |replies| ==> SendsNoUp(replies[i])
    requires Ended(Rounds(utf8, config, sources, replies), processed, ch, panicked)
    ensures CountUps(ch) == processed - (if panicked then 1 else 0)
  {
    var rounds := Rounds(utf8, config, sources, replies);
    forall i | 0 <= i < processed
      ensures CountUps(rounds[i].sent) == UpsOf(rounds[i])
    {
      RoundHasOneUp(utf8, config, sources[i], replies[i]);
    }
    OneUpPerRound(rounds, processed, ch, panicked);
  }

  lemma RoundIsUnmarked(utf8: string -> bool, config: Config, ds: DataSource, reply: Reply)
    requires AllFresh(reply.sent)
    ensures AllFresh(RoundOf(utf8, config, ds, reply).sent)
  {
  }

  lemma {:induction false} SentIsUnmarked(rounds: seq<Round>, n: nat)
    requires n <= |rounds| && forall i :: 0 <= i < n ==> AllFresh(rounds[i].sent)
    ensures AllFresh(Sent(rounds, n))
  {
    if n > 0 {
      SentIsUnmarked(rounds, n - 1);
    }
  }

  /** Nothing in the stream carries a mark, so it is what the prefetch cache requires of its producer. */
  lemma StreamIsUnmarked(utf8: string -> bool, config: Config, sources: seq<DataSource>, replies: seq<Reply>, n: nat)
    requires n <= |sources| == |replies|
    requires forall i :: 0 <= i < n ==> AllFresh(replies[i].sent)
    ensures AllFresh(Sent(Rounds(utf8, config, sources, replies), n))
  {
    var rounds := Rounds(utf8, config, sources, replies);
    forall i | 0 <= i < n
      ensures AllFresh(rounds[i].sent)
    {
      RoundIsUnmarked(utf8, config, sources[i], replies[i]);
    }
    SentIsUnmarked(rounds, n);
  }
}
