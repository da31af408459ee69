/**
 * The decision of the ZooKeeper threshold check: from its configuration and
 * the two server responses (`srvr` and the configured command) to one status
 * and one message line.
 */
module ZookeeperThreshold {
  import opened Wrappers
  import opened Text
  import opened MetricPattern

  datatype Status = Ok | Warning | Critical | Unknown

  /** What the check reports: a status and its one-line message. */
  datatype Outcome = Outcome(status: Status, message: string)

  /**
   * A threshold given on the command line: its value, and the text Ruby prints
   * for that float in a message (for instance "2.0" for `--mincrit 2`).
   */
  datatype Threshold = Threshold(limit: real, shown: string)

  /**
   * The parsed options. `metric` is the empty string when the option is not
   * given, as Ruby interpolates `nil`; an unset threshold is None.
   */
  datatype Config = Config(
    host: string,
    port: int,
    leaderOnly: bool,
    zkCommand: string,
    metric: string,
    minWarn: Option<Threshold>,
    maxWarn: Option<Threshold>,
    minCrit: Option<Threshold>,
    maxCrit: Option<Threshold>)

  /** The option defaults. */
  const DefaultConfig: Config :=
    Config("localhost", 2181, false, "mntr", "", None, None, None, None)

  const LeaderLine: string := "Mode: leader"
  const LeaderProbe: string := "srvr"
  const FollowerMessage: string := "Check run on a follower, but run as leader_only"
  const NotFoundSuffix: string := " not found.  If the metric is only present on leaders, run with --leader_only"

  /** The four bounds, in the order the check tests them. */
  datatype Bound = MinCrit | MaxCrit | MinWarn | MaxWarn

  function Get(cfg: Config, b: Bound): Option<Threshold> {
    match b
    case MinCrit => cfg.minCrit
    case MaxCrit => cfg.maxCrit
    case MinWarn => cfg.minWarn
    case MaxWarn => cfg.maxWarn
  }

  function Clear(cfg: Config, b: Bound): Config {
    match b
    case MinCrit => cfg.(minCrit := None)
    case MaxCrit => cfg.(maxCrit := None)
    case MinWarn => cfg.(minWarn := None)
    case MaxWarn => cfg.(maxWarn := None)
  }

  predicate IsMin(b: Bound) {
    b == MinCrit || b == MinWarn
  }

  /** The status a violated bound reports. */
  function Level(b: Bound): Status {
    if b == MinCrit || b == MaxCrit then Critical else Warning
  }

  /**
   * Bound b is set and v lies strictly beyond it: a set minimum fires for a
   * value strictly below it and a set maximum for one strictly above it; an
   * unset bound never fires, nor does a value equal to the bound.
   */
  function Violated(cfg: Config, b: Bound, v: real): (r: bool)
    ensures Get(cfg, b).None? ==> !r
    ensures Get(cfg, b).Some? && v == Get(cfg, b).value.limit ==> !r
    ensures r && IsMin(b) ==> v < Get(cfg, b).value.limit
    ensures r && !IsMin(b) ==> Get(cfg, b).value.limit < v
    ensures Get(cfg, b).Some? && IsMin(b) && v < Get(cfg, b).value.limit ==> r
    ensures Get(cfg, b).Some? && !IsMin(b) && Get(cfg, b).value.limit < v ==> r
  {
    Get(cfg, b).Some? &&
    if IsMin(b) then v < Get(cfg, b).value.limit else v > Get(cfg, b).value.limit
  }

  /** The word between the value and the bound in a violation message. */
  function Relation(b: Bound): string {
    if IsMin(b) then " less than " else " exceeds "
  }

  /**
   * The message for a violation of b by the captured digits d: the metric,
   * the digits as captured, then the bound as Ruby prints it.
   */
  function Report(cfg: Config, b: Bound, d: string): (m: string)
    requires Get(cfg, b).Some?
    ensures |m| == |cfg.metric| + 1 + |d| + |Relation(b)| + |Get(cfg, b).value.shown|
    ensures m[..|cfg.metric| + 1 + |d|] == cfg.metric + " " + d
    ensures m[|m| - |Get(cfg, b).value.shown|..] == Get(cfg, b).value.shown
    ensures m[|cfg.metric| + 1 + |d|..|m| - |Get(cfg, b).value.shown|]
         == (if IsMin(b) then " less than " else " exceeds ")
  {
    var head := cfg.metric + " " + d;
    var m := head + Relation(b) + Get(cfg, b).value.shown;
    assert m[..|head|] == head;
    assert m[|head|..|m| - |Get(cfg, b).value.shown|] == Relation(b);
    m
  }

  /** `value.to_f` of the captured digits: the whole number they spell, below 10^|d|. */
  function Value(d: string): (r: real)
    requires forall i :: 0 <= i < |d| ==> IsDigit(d[i])
    ensures r == DecimalValue(d) as real
    ensures 0.0 <= r < Pow10(|d|) as real
    ensures r == r.Floor as real
  {
    DecimalValue(d) as real
  }

  /** The four threshold tests, each ending the run when its bound is violated. */
  function Classify(cfg: Config, d: string): (o: Outcome)
    requires forall i :: 0 <= i < |d| ==> IsDigit(d[i])
    ensures o.status != Unknown
    ensures o.status == Ok ==> o.message == cfg.metric + ": " + d
  {
    var v := Value(d);
    if Violated(cfg, MinCrit, v) then Outcome(Critical, Report(cfg, MinCrit, d))
    else if Violated(cfg, MaxCrit, v) then Outcome(Critical, Report(cfg, MaxCrit, d))
    else if Violated(cfg, MinWarn, v) then Outcome(Warning, Report(cfg, MinWarn, d))
    else if Violated(cfg, MaxWarn, v) then Outcome(Warning, Report(cfg, MaxWarn, d))
    else Outcome(Ok, cfg.metric + ": " + d)
  }

  /**
   * Some line of the `srvr` response reads exactly "Mode: leader": this is
   * the test `srvr =~ /^Mode: leader$/`, in both directions.
   */
  function IsLeader(srvr: string): (b: bool)
    ensures b <==> OnLeader(srvr)
  {
    assert Newline !in LeaderLine;
    WholeLineIffLine(srvr, LeaderLine);
    LeaderLine in Lines(srvr)
  }

  /** The whole run, with the two `zkcmd` answers given as inputs. */
  function Check(cfg: Config, srvr: string, response: string): (o: Outcome)
    ensures o.status == Unknown ==> o.message == cfg.metric + NotFoundSuffix
    ensures o.status == Warning || o.status == Critical ==>
      (!cfg.leaderOnly || IsLeader(srvr)) && Extract(response, cfg.metric).Some?
  {
    if cfg.leaderOnly && !IsLeader(srvr) then Outcome(Ok, FollowerMessage)
    else match Extract(response, cfg.metric)
      case None => Outcome(Unknown, cfg.metric + NotFoundSuffix)
      case Some(d) => Classify(cfg, d)
  }

  /** The four-letter words the run sends, in order: `srvr` only under leader_only. */
  function Requests(cfg: Config, srvr: string): (r: seq<string>)
    ensures 1 <= |r| <= 2
  {
    if !cfg.leaderOnly then [cfg.zkCommand]
    else if IsLeader(srvr) then [LeaderProbe, cfg.zkCommand]
    else [LeaderProbe]
  }

  // The source's conditions, stated with the patterns it uses.

  /** `srvr =~ /^Mode: leader$/`. */
  ghost predicate OnLeader(srvr: string) {
    exists p: nat :: WholeLineAt(srvr, p, LeaderLine)
  }

  /** The leader gate lets the run go on to the metric. */
  ghost predicate GatePasses(cfg: Config, srvr: string) {
    !cfg.leaderOnly || OnLeader(srvr)
  }

  /**
   * Under leader_only, a server whose `srvr` answer has no line "Mode: leader"
   * yields OK with the follower message.
   */
  lemma FollowerIsOk(cfg: Config, srvr: string, response: string)
    requires cfg.leaderOnly && !OnLeader(srvr)
    ensures Check(cfg, srvr, response) == Outcome(Ok, FollowerMessage)
  {
  }

  /** On a follower, neither the command's answer nor the thresholds matter. */
  lemma FollowerIgnoresRest(cfg: Config, cfg': Config, srvr: string, response: string, response': string)
    requires cfg.leaderOnly && cfg'.leaderOnly && !OnLeader(srvr)
    ensures Check(cfg, srvr, response) == Check(cfg', srvr, response')
  {
    FollowerIsOk(cfg, srvr, response);
    FollowerIsOk(cfg', srvr, response');
  }

  /** The `srvr` answer matters only through whether it shows a leader, and only under leader_only. */
  lemma SrvrOnlyThroughGate(cfg: Config, srvr: string, srvr': string, response: string)
    requires !cfg.leaderOnly || OnLeader(srvr) == OnLeader(srvr')
    ensures Check(cfg, srvr, response) == Check(cfg, srvr', response)
  {
  }

  /** A follower is probed once; otherwise the configured command is sent last. */
  lemma RequestsFollowGate(cfg: Config, srvr: string)
    ensures !GatePasses(cfg, srvr) ==> Requests(cfg, srvr) == [LeaderProbe]
    ensures GatePasses(cfg, srvr) ==>
      Requests(cfg, srvr) == (if cfg.leaderOnly then [LeaderProbe] else []) + [cfg.zkCommand]
  {
  }

  /**
   * Only `srvr` is sent exactly when the run ends with the follower outcome;
   * any other run also sends the configured command.
   */
  lemma ProbeOnlyIffFollower(cfg: Config, srvr: string, response: string)
    ensures Requests(cfg, srvr) == [LeaderProbe] && cfg.leaderOnly
        <==> Check(cfg, srvr, response) == Outcome(Ok, FollowerMessage)
    ensures Check(cfg, srvr, response) != Outcome(Ok, FollowerMessage) ==>
      Requests(cfg, srvr)[|Requests(cfg, srvr)| - 1] == cfg.zkCommand
  {
    if !(cfg.leaderOnly && !IsLeader(srvr)) {
      match Extract(response, cfg.metric)
      case None =>
      case Some(d) =>
        OkMessageIsNotFollower(cfg.metric, d);
    }
  }

  /** The follower message is not an OK message "<metric>: <digits>": it ends in a letter. */
  lemma OkMessageIsNotFollower(metric: string, d: string)
    requires |d| > 0 && forall i :: 0 <= i < |d| ==> IsDigit(d[i])
    ensures metric + ": " + d != FollowerMessage
  {
    var m := metric + ": " + d;
    assert m[|m| - 1] == d[|d| - 1];
    assert FollowerMessage[|FollowerMessage| - 1] == 'y';
  }

  /** The run is UNKNOWN exactly when the gate passes and the metric pattern matches nowhere. */
  lemma UnknownIffMissing(cfg: Config, srvr: string, response: string)
    ensures Check(cfg, srvr, response).status == Unknown <==> GatePasses(cfg, srvr) && !Present(response, cfg.metric)
    ensures GatePasses(cfg, srvr) && !Present(response, cfg.metric) ==>
      Check(cfg, srvr, response).message == cfg.metric + NotFoundSuffix
  {
  }

  /**
   * Past the gate, the outcome is the classification of the digits of the
   * first match, whatever later lines hold.
   */
  lemma FoundIsClassified(cfg: Config, srvr: string, response: string, p: nat, q: nat, e: nat)
    requires GatePasses(cfg, srvr) && Leftmost(response, cfg.metric, p, q, e)
    ensures forall i :: q <= i < e ==> IsDigit(response[i])
    ensures Check(cfg, srvr, response) == Classify(cfg, response[q..e])
  {
    ExtractLeftmost(response, cfg.metric, p, q, e);
  }

  /** Past the gate with the metric found, OK exactly when no set bound is violated. */
  lemma OkIffWithinBounds(cfg: Config, srvr: string, response: string, p: nat, q: nat, e: nat)
    requires GatePasses(cfg, srvr) && Leftmost(response, cfg.metric, p, q, e)
    ensures forall i :: q <= i < e ==> IsDigit(response[i])
    ensures Check(cfg, srvr, response).status == Ok <==>
      forall b: Bound :: !Violated(cfg, b, Value(response[q..e]))
    ensures Check(cfg, srvr, response).status == Ok ==>
      Check(cfg, srvr, response).message == cfg.metric + ": " + response[q..e]
  {
    FoundIsClassified(cfg, srvr, response, p, q, e);
    var v := Value(response[q..e]);
    if Check(cfg, srvr, response).status == Ok {
      forall b: Bound ensures !Violated(cfg, b, v) {
        match b
        case MinCrit =>
        case MaxCrit =>
        case MinWarn =>
        case MaxWarn =>
      }
    } else {
      assert Violated(cfg, MinCrit, v) || Violated(cfg, MaxCrit, v)
          || Violated(cfg, MinWarn, v) || Violated(cfg, MaxWarn, v);
    }
  }

  /** The level of the run as the thresholds decide it: any critical bound first. */
  function Severity(cfg: Config, v: real): Status {
    if Below(cfg.minCrit, v) || Above(cfg.maxCrit, v) then Critical
    else if Below(cfg.minWarn, v) || Above(cfg.maxWarn, v) then Warning
    else Ok
  }

  /** v is strictly below a set threshold t. */
  predicate Below(t: Option<Threshold>, v: real) {
    t.Some? && v < t.value.limit
  }

  /** v is strictly above a set threshold t. */
  predicate Above(t: Option<Threshold>, v: real) {
    t.Some? && t.value.limit < v
  }

  /** The classification reports CRITICAL iff a critical bound is crossed, else WARNING iff a warning bound is. */
  lemma ClassifyIsSeverity(cfg: Config, d: string)
    requires forall i :: 0 <= i < |d| ==> IsDigit(d[i])
    ensures Classify(cfg, d).status == Severity(cfg, Value(d))
  {}

  /**
   * A non-OK classification comes from a bound that is set and strictly
   * crossed, and its message names that bound.
   */
  lemma NonOkNamesItsBound(cfg: Config, d: string)
    requires forall i :: 0 <= i < |d| ==> IsDigit(d[i])
    ensures Classify(cfg, d).status != Ok ==>
      exists b: Bound :: Violated(cfg, b, Value(d)) && Level(b) == Classify(cfg, d).status
        && Classify(cfg, d).message == Report(cfg, b, d)
  {
    var v := Value(d);
    if Violated(cfg, MinCrit, v) {
      assert Level(MinCrit) == Critical;
    } else if Violated(cfg, MaxCrit, v) {
      assert Level(MaxCrit) == Critical;
    } else if Violated(cfg, MinWarn, v) {
      assert Level(MinWarn) == Warning;
    } else if Violated(cfg, MaxWarn, v) {
      assert Level(MaxWarn) == Warning;
    }
  }

  /** With no bound set the classification is OK with "<metric>: <digits>". */
  lemma NoBoundsIsOk(cfg: Config, d: string)
    requires forall i :: 0 <= i < |d| ==> IsDigit(d[i])
    requires forall b: Bound :: Get(cfg, b).None?
    ensures Classify(cfg, d) == Outcome(Ok, cfg.metric + ": " + d)
  {
    assert Get(cfg, MinCrit).None? && Get(cfg, MaxCrit).None?;
    assert Get(cfg, MinWarn).None? && Get(cfg, MaxWarn).None?;
  }

  /** When the value is below mincrit and above maxcrit, the "less than" message wins. */
  lemma MinCritWins(cfg: Config, d: string)
    requires forall i :: 0 <= i < |d| ==> IsDigit(d[i])
    requires Violated(cfg, MinCrit, Value(d)) && Violated(cfg, MaxCrit, Value(d))
    ensures Classify(cfg, d) == Outcome(Critical, cfg.metric + " " + d + " less than " + cfg.minCrit.value.shown)
  {}

  /** With no critical violation, below minwarn and above maxwarn reports "less than" minwarn. */
  lemma MinWarnWins(cfg: Config, d: string)
    requires forall i :: 0 <= i < |d| ==> IsDigit(d[i])
    requires !Violated(cfg, MinCrit, Value(d)) && !Violated(cfg, MaxCrit, Value(d))
    requires Violated(cfg, MinWarn, Value(d)) && Violated(cfg, MaxWarn, Value(d))
    ensures Classify(cfg, d) == Outcome(Warning, cfg.metric + " " + d + " less than " + cfg.minWarn.value.shown)
  {}

  /** A bound the value does not strictly cross could as well be unset. */
  lemma UncrossedBoundIsInert(cfg: Config, d: string, b: Bound)
    requires forall i :: 0 <= i < |d| ==> IsDigit(d[i])
    requires !Violated(cfg, b, Value(d))
    ensures Classify(cfg, d) == Classify(Clear(cfg, b), d)
  {}

  /** The comparisons are strict: a value equal to a bound never triggers it. */
  lemma EqualBoundIsInert(cfg: Config, d: string, b: Bound)
    requires forall i :: 0 <= i < |d| ==> IsDigit(d[i])
    requires Get(cfg, b).Some? && Get(cfg, b).value.limit == Value(d)
    ensures Classify(cfg, d) == Classify(Clear(cfg, b), d)
  {
    UncrossedBoundIsInert(cfg, d, b);
  }
}
