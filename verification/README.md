# ZooKeeper threshold check, modelled in Dafny

This is a model of the decision logic of the Sensu plugin `check-zookeeper-threshold.rb`. The plugin sends a ZooKeeper "four-letter word" (such as `mntr`) to a server and reads one numeric metric from the plain-text answer. It compares that metric with up to four optional bounds and reports one of OK, WARNING, CRITICAL or UNKNOWN with a one-line message.

The run is modelled as the pure function `ZookeeperThreshold.Check(cfg, srvr, response)`. The two socket round trips of `zkcmd` become its two string inputs: the answer to `srvr` (read only under `--leader_only`) and the answer to the configured command. The early exits `ok`/`unknown`/`critical`/`warning` become a returned `Outcome(status, message)`.

The model has five modules:

- `Wrappers` (`wrappers.dfy`): `Option`, with `None` standing for Ruby's `nil`.
- `Text` (`text.dfy`): Ruby's `\s`, `\d`, `^` and `$`, and a line splitter `Lines` with its inverse `Join`. A proof shows that the pattern `^w$` matches exactly when `w` is one of the lines.
- `MetricPattern` (`pattern.dfy`): the pattern `^<metric>\s+(\d+)$`.
  - It has a declarative meaning, `MatchSpan`, which is any way the regular expression can match.
  - It has a search that returns the digits of the leftmost match, `Extract`.
  - It reads those digits as a number, `DecimalValue`.
- `ZookeeperThreshold` (`threshold.dfy`): the configuration, the leader gate, the ordered threshold tests (`Classify`), the whole run (`Check`) and the properties of the run.
- `Scenarios` (`scenarios.dfy`): the plugin's usage example and two other concrete configurations.

Some behaviour of the code worth noting:

- The leader gate accepts a `srvr` answer in which ANY line is exactly `Mode: leader` (line 85 uses `^`/`$`, which anchor at every line). It is not limited to the first line.
- The OK message shows the captured digit string as it was read, e.g. `zk_synced_followers: 3`, not `3.0` (line 112 interpolates the string `value`). The threshold messages do the same for the value.
- The not-found message has two spaces after `not found.` (line 93).
- Ruby's `\s` also matches a line feed. So the whitespace between the metric name and its digits may span lines: `"zk_x\n5"` matches `zk_x` with value `5`. The model keeps this.

## Model

| member | source | states |
|---|---|---|
| `ZookeeperThreshold.Check` | bin/check-zookeeper-threshold.rb:81-114 | An UNKNOWN run carries the "<metric> not found..." message. A WARNING or CRITICAL run happened past the leader gate with the metric found. |
| `ZookeeperThreshold.Violated` | bin/check-zookeeper-threshold.rb:96-109 | A set minimum fires exactly for values strictly below it, and a set maximum exactly for values strictly above it. An unset (nil) bound never fires, and neither does a value equal to the bound. |
| `ZookeeperThreshold.Report` | bin/check-zookeeper-threshold.rb:97-109 | A violation message starts with "<metric> <digits>", the digits as captured, and ends with the bound's printed text. Between them is " less than " for mincrit/minwarn and " exceeds " for maxcrit/maxwarn. |
| `ZookeeperThreshold.Value` | bin/check-zookeeper-threshold.rb:97 | `value.to_f` of the captured digits is the whole number they spell in base ten (`DecimalValue`), so it is non-negative and below 10^n for n digits. |
| `ZookeeperThreshold.Classify` | bin/check-zookeeper-threshold.rb:96-112 | The threshold tests never yield UNKNOWN, and an OK result carries "<metric>: <digits>" with the digits as captured. |
| `ZookeeperThreshold.Requests` | bin/check-zookeeper-threshold.rb:83-88 | A run sends one or two four-letter words. |
| `ZookeeperThreshold.ProbeOnlyIffFollower` | bin/check-zookeeper-threshold.rb:83-88 | Under leader_only only `srvr` is sent exactly when the run ends with the follower OK; every other run sends the configured command last. |
| `ZookeeperThreshold.OkMessageIsNotFollower` | bin/check-zookeeper-threshold.rb:86 | No OK message "<metric>: <digits>" can equal the follower message, so the follower outcome only comes from the gate. |
| `ZookeeperThreshold.RequestsFollowGate` | bin/check-zookeeper-threshold.rb:83-88 | A follower under leader_only is sent only `srvr`. Otherwise the configured command is sent last, after `srvr` only under leader_only. |
| `ZookeeperThreshold.IsLeader` | bin/check-zookeeper-threshold.rb:85 | The line-based leader test holds exactly when `srvr =~ /^Mode: leader$/` matches, in both directions. |
| `ZookeeperThreshold.FollowerIsOk` | bin/check-zookeeper-threshold.rb:83-86 | Under leader_only, a `srvr` answer that does not match `^Mode: leader$` gives OK with "Check run on a follower, but run as leader_only". |
| `ZookeeperThreshold.FollowerIgnoresRest` | bin/check-zookeeper-threshold.rb:83-86 | On a follower, neither the command's answer nor the metric nor any threshold changes the outcome. |
| `ZookeeperThreshold.SrvrOnlyThroughGate` | bin/check-zookeeper-threshold.rb:83-88 | The `srvr` answer affects the outcome only through whether it matches `^Mode: leader$`, and not at all without leader_only. |
| `ZookeeperThreshold.UnknownIffMissing` | bin/check-zookeeper-threshold.rb:88-94 | The run is UNKNOWN exactly when the gate passes and the metric pattern matches nowhere in the answer. That run's message is "<metric> not found.  If the metric is only present on leaders, run with --leader_only", whatever the thresholds are. |
| `ZookeeperThreshold.FoundIsClassified` | bin/check-zookeeper-threshold.rb:88-112 | Past the gate, the outcome is decided by the digits of the leftmost match alone. |
| `ZookeeperThreshold.OkIffWithinBounds` | bin/check-zookeeper-threshold.rb:96-112 | Past the gate with the metric found, the run is OK exactly when no set bound is strictly crossed. Its message is then "<metric>: <digits>" with the raw digits. |
| `ZookeeperThreshold.ClassifyIsSeverity` | bin/check-zookeeper-threshold.rb:96-110 | The tests report CRITICAL iff mincrit or maxcrit is crossed, else WARNING iff minwarn or maxwarn is crossed, else OK. Critical takes precedence over warning. |
| `ZookeeperThreshold.NonOkNamesItsBound` | bin/check-zookeeper-threshold.rb:96-110 | A non-OK result comes from a bound that is set and strictly crossed. That bound's level is the status, and its "less than"/"exceeds" message is the message. |
| `ZookeeperThreshold.NoBoundsIsOk` | bin/check-zookeeper-threshold.rb:96-112 | With every bound unset (nil), the result is OK "<metric>: <digits>". |
| `ZookeeperThreshold.MinCritWins` | bin/check-zookeeper-threshold.rb:96-102 | A value below mincrit and above maxcrit reports "<metric> <digits> less than <mincrit>", because mincrit is tested first. |
| `ZookeeperThreshold.MinWarnWins` | bin/check-zookeeper-threshold.rb:104-110 | With no critical bound crossed, a value below minwarn and above maxwarn reports "less than <minwarn>". |
| `ZookeeperThreshold.UncrossedBoundIsInert` | bin/check-zookeeper-threshold.rb:96-110 | Unsetting a bound that the value does not strictly cross leaves the outcome unchanged. |
| `ZookeeperThreshold.EqualBoundIsInert` | bin/check-zookeeper-threshold.rb:96-110 | The comparisons are strict: a value equal to a bound never triggers it. |
| `MetricPattern.Span` | bin/check-zookeeper-threshold.rb:90 | Gives the end of the longest run of `\s` or `\d` characters from a position. |
| `MetricPattern.MatchSpanIsGreedy` | bin/check-zookeeper-threshold.rb:90 | Where the pattern matches at a start, its whitespace and digits are exactly the longest runs there, so the match at a start is unique. |
| `MetricPattern.MatchAt` | bin/check-zookeeper-threshold.rb:90 | Returns digit bounds only for a real match at that start, and None only when there is no match there. |
| `MetricPattern.FirstMatchFrom` | bin/check-zookeeper-threshold.rb:90 | Returns the first start at or after p where the pattern matches, with no match before it, or None when no later start matches. |
| `MetricPattern.Extract` | bin/check-zookeeper-threshold.rb:90-91 | Gives None exactly when the pattern matches nowhere. Otherwise it gives `Regexp.last_match(1)`: a non-empty string of decimal digits, the capture of the leftmost match. |
| `MetricPattern.LeftmostIsUnique` | bin/check-zookeeper-threshold.rb:90-91 | Two leftmost matches have the same start and the same digits. |
| `MetricPattern.ExtractLeftmost` | bin/check-zookeeper-threshold.rb:90-91 | Any leftmost match determines what is captured. |
| `MetricPattern.DecimalValue` | bin/check-zookeeper-threshold.rb:97 | `value.to_f` of the digits is a natural number below 10^n for n digits, and at least 10^(n-1) without a leading zero. |
| `MetricPattern.DecimalValueAppend` | bin/check-zookeeper-threshold.rb:97 | Digits read left to right: the value of a followed by b is the value of a shifted by the length of b, plus the value of b. |
| `MetricPattern.LeadingZero` | bin/check-zookeeper-threshold.rb:97 | A leading zero does not change the compared value, although the message shows the digits as captured. |
| `Text.Lines` | bin/check-zookeeper-threshold.rb:85 | The lines of a text are at least one, and none contains a line feed. |
| `Text.JoinLines` | bin/check-zookeeper-threshold.rb:85 | Joining the lines of a text with line feeds gives the text back. |
| `Text.LinesJoin` | bin/check-zookeeper-threshold.rb:85 | Splitting a join of line-feed-free lines gives the lines back. |
| `Text.WholeLineIffLine` | bin/check-zookeeper-threshold.rb:85 | `^w$` matches somewhere in a text iff w is one of its lines, for a non-empty w without line feeds. |
| `Text.LineIsMatched` | bin/check-zookeeper-threshold.rb:85 | Every non-empty line is matched by its own `^w$`. |
| `Text.MatchIsLine` | bin/check-zookeeper-threshold.rb:85 | Whatever `^w$` matches is a line. |
| `Scenarios.LeaderSrvrPasses` | bin/check-zookeeper-threshold.rb:83-86 | The answer "Mode: leader\n" passes the gate under leader_only. |
| `Scenarios.FollowerScenario` | bin/check-zookeeper-threshold.rb:83-86 | The answer "Mode: follower\n" under leader_only gives the follower OK, whatever the answer to the configured command is. |
| `Scenarios.SingleLineCaptured` | bin/check-zookeeper-threshold.rb:90-91 | The answer "<metric>\t<digits>\n" matches at 0 and captures those digits. |
| `Scenarios.SingleLineClassified` | bin/check-zookeeper-threshold.rb:88-112 | Past the gate, that one-line answer is classified by its digits. |
| `Scenarios.SyncedFollowersScenario` | bin/check-zookeeper-threshold.rb:96-112 | With `--metric zk_synced_followers --leader_only --mincrit 2`, a digit below 2 is CRITICAL ("zk_synced_followers 1 less than 2.0"). Any other digit is OK ("zk_synced_followers: 3"). |
| `Scenarios.UsageExample` | bin/check-zookeeper-threshold.rb:81-112 | The whole run of the usage example on a leader answering "zk_synced_followers\t<c>\n": CRITICAL "zk_synced_followers <c> less than 2.0" for a digit below 2, OK "zk_synced_followers: <c>" otherwise. |
| `Scenarios.LatencyScenario` | bin/check-zookeeper-threshold.rb:100-110 | With `--maxwarn 50 --maxcrit 100`, a latency in (50, 100] is WARNING "zk_avg_latency <digits> exceeds 50.0". |

## Left out

- `zkcmd` (lines 73-79): the TCP connection, the `\r\n`-terminated request, the half-close and the read to end of stream are network I/O. The two answers are inputs of `Check`. `Requests` only records which four-letter words are sent, and host and port are carried in `Config` without being used.
- A failed connection: `Socket.tcp` in `zkcmd` (line 74) raises out of `run`. What the sensu-plugin library then reports is not modelled.
- Option declaration and parsing (lines 31-71) belong to the `sensu-plugin` library: `to_i` for the port and `to_f` for the thresholds. `Config` holds the parsed values, and `DefaultConfig` holds the declared defaults.
- `Threshold`: its `limit` is a real number, so it cannot hold the ±Infinity that `to_f` gives for an option such as `--maxcrit 1e400`. With such a bound no value would exceed a maxcrit of Infinity, and every value would fall below a mincrit of Infinity. Neither case is modelled.
- Ruby's `Float#to_s` text for a threshold in a message ("2.0") is float formatting. Each `Threshold` carries that text (`shown`) beside its value, as given by the caller.
- The exit codes and the standard-output line that `ok`, `warning`, `critical` and `unknown` produce live inside `Sensu::Plugin::Check::CLI`. Only the (status, message) pair is modelled.
- `Value`, `DecimalValue`: `value.to_f` is modelled as the exact integer the digits spell. IEEE double rounding of values above 2^53, and overflow to Infinity, are not modelled.
- `Extract`: the metric name is matched literally. The plugin interpolates it into the pattern unescaped, so a name containing regular-expression metacharacters has Ruby's regex meaning there. That meaning is not modelled.
- Character encodings: a response is a sequence of characters. Ruby's handling of invalid byte sequences is not modelled.
