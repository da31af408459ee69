/** Concrete runs of the check, as in the plugin's usage example. */
module Scenarios {
  import opened Wrappers
  import opened Text
  import opened MetricPattern
  import opened ZookeeperThreshold

  const SyncedFollowers: string := "zk_synced_followers"

  /** `--metric zk_synced_followers --leader_only --mincrit 2`. */
  const LeaderOnlyConfig: Config :=
    DefaultConfig.(leaderOnly := true, metric := SyncedFollowers, minCrit := Some(Threshold(2.0, "2.0")))

  const LeaderSrvr: string := "Mode: leader\n"

  /** The gate passes on a server that reports itself as leader. */
  lemma LeaderSrvrPasses()
    ensures GatePasses(LeaderOnlyConfig, LeaderSrvr)
  {
    assert WholeLineAt(LeaderSrvr, 0, LeaderLine);
  }

  /** The answer "<metric>\t<d>\n" captures d, whatever digits d holds. */
  lemma SingleLineCaptured(metric: string, d: string)
    requires |d| > 0 && forall i :: 0 <= i < |d| ==> IsDigit(d[i])
    ensures Leftmost(metric + "\t" + d + "\n", metric, 0, |metric| + 1, |metric| + 1 + |d|)
    ensures (metric + "\t" + d + "\n")[|metric| + 1..|metric| + 1 + |d|] == d
  {}

  /** Past the gate, a one-line answer "<metric>\t<d>\n" is classified by its digits d. */
  lemma SingleLineClassified(cfg: Config, srvr: string, d: string)
    requires GatePasses(cfg, srvr)
    requires |d| > 0 && forall i :: 0 <= i < |d| ==> IsDigit(d[i])
    ensures Check(cfg, srvr, cfg.metric + "\t" + d + "\n") == Classify(cfg, d)
  {
    SingleLineCaptured(cfg.metric, d);
    FoundIsClassified(cfg, srvr, cfg.metric + "\t" + d + "\n", 0, |cfg.metric| + 1, |cfg.metric| + 1 + |d|);
  }

  /**
   * A follower count c against `--mincrit 2` is CRITICAL below 2 and OK
   * otherwise: "1" gives "zk_synced_followers 1 less than 2.0" and "3" gives
   * "zk_synced_followers: 3", the digits printed as captured.
   */
  lemma SyncedFollowersScenario(c: char)
    requires IsDigit(c)
    ensures Classify(LeaderOnlyConfig, [c])
         == if c < '2' then Outcome(Critical, SyncedFollowers + " " + [c] + " less than 2.0")
            else Outcome(Ok, SyncedFollowers + ": " + [c])
  {}

  /**
   * The usage example end to end: a leader answering "zk_synced_followers\t<c>\n"
   * is CRITICAL below 2 and OK otherwise.
   */
  lemma UsageExample(c: char)
    requires IsDigit(c)
    ensures Check(LeaderOnlyConfig, LeaderSrvr, SyncedFollowers + "\t" + [c] + "\n")
         == if c < '2' then Outcome(Critical, SyncedFollowers + " " + [c] + " less than 2.0")
            else Outcome(Ok, SyncedFollowers + ": " + [c])
  {
    LeaderSrvrPasses();
    SingleLineClassified(LeaderOnlyConfig, LeaderSrvr, [c]);
    SyncedFollowersScenario(c);
  }

  /** `--metric zk_avg_latency --maxwarn 50 --maxcrit 100`. */
  const LatencyConfig: Config :=
    DefaultConfig.(metric := "zk_avg_latency",
                   maxWarn := Some(Threshold(50.0, "50.0")),
                   maxCrit := Some(Threshold(100.0, "100.0")))

  /**
   * A latency above 50 and at most 100, 75 say, is a WARNING that reports the
   * warning bound, not the critical one.
   */
  lemma LatencyScenario(d: string)
    requires |d| > 0 && forall i :: 0 <= i < |d| ==> IsDigit(d[i])
    requires 50.0 < Value(d) <= 100.0
    ensures Classify(LatencyConfig, d) == Outcome(Warning, "zk_avg_latency " + d + " exceeds 50.0")
  {}

  /** A follower's `srvr` answer stops the run, whatever the command's answer holds. */
  lemma FollowerScenario(response: string)
    ensures Check(LeaderOnlyConfig, "Mode: follower\n", response) == Outcome(Ok, FollowerMessage)
  {
    var srvr := "Mode: follower\n";
    forall p: nat ensures !WholeLineAt(srvr, p, LeaderLine) {
    }
    FollowerIsOk(LeaderOnlyConfig, srvr, response);
  }
}
