/** Service restart playbook with its recovery log, and the version-control
    rollback manager with its history (backup/service_recovery.py).

    TCP port probes, the settle delay and the git processes are outside the
    model: a probe is a function from port to "something is listening", and
    each git invocation is given by its outcome. */
module ServiceRecovery {
  import opened Common

  datatype ServiceConfig = ServiceConfig(port: int, startCmd: string, healthEndpoint: string, restartDelay: int)

  /** The four services the orchestrator knows out of the box. */
  function DefaultServices(): map<string, ServiceConfig> {
    map[
      "GrokAPI" := ServiceConfig(8080, "python3 -m grokapi.server", "/health", 5),
      "OrbitBridge" := ServiceConfig(3001, "node orbitbridge/server.js", "/status", 3),
      "JobMaster" := ServiceConfig(5010, "python3 -m jobmaster.server", "/health", 5),
      "Prometheus" := ServiceConfig(9090, "prometheus --config.file=prometheus.yml", "/-/healthy", 10)
    ]
  }

  datatype ServiceStatus =
    | UnknownService(error: string)
    | Status(service: string, port: int, running: bool, healthEndpoint: string)

  /** What the port probe after a live restart reported, or the error it raised. */
  datatype Probe = Reached(up: bool) | ProbeRaised(error: string)

  datatype RestartOutcome =
    | WouldExecute(message: string)
    | CameBack(runningAfter: bool)
    | Errored(error: string)

  datatype RestartResult =
    | RestartRefused(error: string)
    | RestartAttempt(service: string, dryRun: bool, outcome: RestartOutcome)
  {
    /** The `success` field of the result record. */
    predicate Success() {
      match this
      case RestartRefused(_) => false
      case RestartAttempt(_, _, o) =>
        match o
        case WouldExecute(_) => true
        case CameBack(b) => b
        case Errored(_) => false
    }
  }

  function UnknownServiceError(name: string): string {
    "Unknown service: " + name
  }

  function DryRunRestart(name: string, cfg: ServiceConfig): RestartResult {
    RestartAttempt(name, true, WouldExecute("Would execute: " + cfg.startCmd))
  }

  datatype PlaybookEntry =
    | Skipped(service: string, reason: string)
    | Restarted(result: RestartResult)

  datatype PlaybookReport = PlaybookReport(
    servicesTargeted: seq<string>,
    recoveryResults: seq<PlaybookEntry>,
    overallSuccess: bool)

  /** The playbook's entry for one name: skipped when its status says it is
      running, otherwise the result of a dry-run restart. */
  function PlaybookEntryFor(services: map<string, ServiceConfig>, name: string, portUp: int -> bool): PlaybookEntry {
    if name in services && portUp(services[name].port) then Skipped(name, "already_running")
    else if name in services then Restarted(DryRunRestart(name, services[name]))
    else Restarted(RestartRefused(UnknownServiceError(name)))
  }

  /** An entry that makes the playbook's overall result false. */
  predicate FailedEntry(e: PlaybookEntry) {
    e.Restarted? && !e.result.Success()
  }

  /** The recovery-log entries a playbook run over `names` appends. */
  function PlaybookLog(services: map<string, ServiceConfig>, names: seq<string>, portUp: int -> bool): seq<RestartResult> {
    if |names| == 0 then []
    else
      var name := names[|names| - 1];
      PlaybookLog(services, names[..|names| - 1], portUp)
      + (if name in services && !portUp(services[name].port) then [DryRunRestart(name, services[name])] else [])
  }

  /** The playbook fails exactly when some name is not registered: known
      services are either skipped or restarted in dry-run mode, which always
      succeeds, and unknown ones are never reported as running. */
  lemma PlaybookSucceedsIffAllKnown(services: map<string, ServiceConfig>, names: seq<string>, portUp: int -> bool)
    ensures (exists i | 0 <= i < |names| :: FailedEntry(PlaybookEntryFor(services, names[i], portUp)))
        <==> (exists i | 0 <= i < |names| :: names[i] !in services)
  {
    if exists i | 0 <= i < |names| :: names[i] !in services {
      var i :| 0 <= i < |names| && names[i] !in services;
      assert FailedEntry(PlaybookEntryFor(services, names[i], portUp));
    }
  }

  /** Every logged playbook restart is a successful dry run of a registered
      service that was down, and there is one per such name. */
  lemma {:induction false} PlaybookLogEntries(services: map<string, ServiceConfig>, names: seq<string>, portUp: int -> bool)
    ensures |PlaybookLog(services, names, portUp)| <= |names|
    ensures forall r | r in PlaybookLog(services, names, portUp) ::
              r.RestartAttempt? && r.dryRun && r.Success()
              && r.service in services && !portUp(services[r.service].port)
  {
    if |names| > 0 {
      PlaybookLogEntries(services, names[..|names| - 1], portUp);
    }
  }

  class ServiceRecovery {
    var services: map<string, ServiceConfig>
    var recoveryLog: seq<RestartResult>

    constructor ()
      ensures services == DefaultServices() && recoveryLog == []
    {
      services := DefaultServices();
      recoveryLog := [];
    }

    /** The status of a registered service is the probe of its port. */
    function GetServiceStatus(name: string, portUp: int -> bool): (st: ServiceStatus)
      reads this
      ensures st.UnknownService? <==> name !in services
      ensures st.UnknownService? ==> st.error == UnknownServiceError(name)
      ensures st.Status? ==>
                st.service == name && st.port == services[name].port
                && st.running == portUp(services[name].port)
                && st.healthEndpoint == services[name].healthEndpoint
    {
      if name !in services then UnknownService(UnknownServiceError(name))
      else
        var cfg := services[name];
        Status(name, cfg.port, portUp(cfg.port), cfg.healthEndpoint)
    }

    function GetAllStatuses(portUp: int -> bool): (all: map<string, ServiceStatus>)
      reads this
      ensures all.Keys == services.Keys
      ensures forall name | name in all :: all[name].Status? && all[name].running == portUp(services[name].port)
    {
      map name | name in services :: GetServiceStatus(name, portUp)
    }

    /** The recovery log itself. */
    function GetRecoveryHistory(): seq<RestartResult>
      reads this
    {
      recoveryLog
    }

    /** Refuses unknown names without logging; otherwise logs exactly one
        result: in dry-run mode the command it would run, in live mode the
        port probe taken after the restart, or the error raised. */
    method AttemptRestart(name: string, dryRun: bool, probe: Probe) returns (r: RestartResult)
      modifies this`recoveryLog
      ensures name !in services ==>
                r == RestartRefused(UnknownServiceError(name)) && !r.Success()
                && recoveryLog == old(recoveryLog)
      ensures name in services ==>
                r.RestartAttempt? && r.service == name && r.dryRun == dryRun
                && recoveryLog == old(recoveryLog) + [r]
      ensures name in services && dryRun ==>
                r == DryRunRestart(name, services[name]) && r.Success()
      ensures name in services && !dryRun ==>
                (r.Success() <==> probe == Reached(true))
                && (probe.Reached? ==> r.outcome == CameBack(probe.up))
                && (probe.ProbeRaised? ==> r.outcome == Errored(probe.error))
    {
      if name !in services {
        return RestartRefused(UnknownServiceError(name));
      }
      var cfg := services[name];
      if dryRun {
        r := RestartAttempt(name, true, WouldExecute("Would execute: " + cfg.startCmd));
      } else {
        match probe
        case Reached(up) =>
          r := RestartAttempt(name, false, CameBack(up));
        case ProbeRaised(e) =>
          r := RestartAttempt(name, false, Errored(e));
      }
      recoveryLog := recoveryLog + [r];
    }

    /** One entry per name, in order; running services are skipped, the rest
        get a dry-run restart; the overall flag is false iff some restart
        failed. */
    method RunRecoveryPlaybook(failedServices: seq<string>, portUp: int -> bool) returns (report: PlaybookReport)
      modifies this`recoveryLog
      ensures report.servicesTargeted == failedServices
      ensures |report.recoveryResults| == |failedServices|
      ensures forall i | 0 <= i < |failedServices| ::
                report.recoveryResults[i] == PlaybookEntryFor(services, failedServices[i], portUp)
      ensures recoveryLog == old(recoveryLog) + PlaybookLog(services, failedServices, portUp)
      ensures report.overallSuccess <==> forall i | 0 <= i < |failedServices| :: !FailedEntry(report.recoveryResults[i])
      ensures report.overallSuccess <==> forall i | 0 <= i < |failedServices| :: failedServices[i] in services
    {
      var results: seq<PlaybookEntry> := [];
      var overall := true;
      var i := 0;
      while i < |failedServices|
        invariant 0 <= i <= |failedServices|
        invariant |results| == i
        invariant forall j | 0 <= j < i :: results[j] == PlaybookEntryFor(services, failedServices[j], portUp)
        invariant recoveryLog == old(recoveryLog) + PlaybookLog(services, failedServices[..i], portUp)
        invariant overall <==> forall j | 0 <= j < i :: !FailedEntry(results[j])
      {
        var service := failedServices[i];
        assert failedServices[..i + 1][..i] == failedServices[..i];
        var status := GetServiceStatus(service, portUp);
        if status.Status? && status.running {
          results := results + [Skipped(service, "already_running")];
        } else {
          var r := AttemptRestart(service, true, Reached(false));
          results := results + [Restarted(r)];
          if !r.Success() {
            overall := false;
          }
        }
        i := i + 1;
      }
      assert failedServices[..i] == failedServices;
      PlaybookSucceedsIffAllKnown(services, failedServices, portUp);
      report := PlaybookReport(failedServices, results, overall);
    }
  }

  // ---------------------------------------------------------------------------
  // git log parsing

  /** Python's `str.isspace` for one character. */
  predicate IsSpace(c: char) {
    c == ' ' || ('\t' <= c <= '\r') || ('\U{1c}' <= c <= '\U{1f}') || c == '\U{85}' || c == '\U{a0}'
    || c == '\U{1680}' || ('\U{2000}' <= c <= '\U{200a}') || c == '\U{2028}' || c == '\U{2029}'
    || c == '\U{202f}' || c == '\U{205f}' || c == '\U{3000}'
  }

  /** `s.lstrip()`: drops the leading whitespace and nothing else. */
  function TrimStart(s: string): (r: string)
    ensures |r| <= |s| && r == s[|s| - |r|..]
    ensures |r| > 0 ==> !IsSpace(r[0])
    ensures forall i | 0 <= i < |s| - |r| :: IsSpace(s[i])
  {
    if |s| > 0 && IsSpace(s[0]) then
      var r := TrimStart(s[1..]);
      assert forall i | 1 <= i < |s| - |r| :: s[i] == s[1..][i - 1];
      r
    else s
  }

  /** `s.rstrip()`: drops the trailing whitespace and nothing else. */
  function TrimEnd(s: string): (r: string)
    ensures |r| <= |s| && r == s[..|r|]
    ensures |r| > 0 ==> !IsSpace(r[|r| - 1])
    ensures forall i | |r| <= i < |s| :: IsSpace(s[i])
  {
    if |s| > 0 && IsSpace(s[|s| - 1]) then
      var r := TrimEnd(s[..|s| - 1]);
      assert forall i | |r| <= i < |s| - 1 :: s[i] == s[..|s| - 1][i];
      r
    else s
  }

  /** Python's `s.strip()`: the part of `s` between leading and trailing
      whitespace, itself neither starting nor ending with whitespace. */
  function Strip(s: string): (r: string)
    ensures |r| > 0 ==> !IsSpace(r[0]) && !IsSpace(r[|r| - 1])
    ensures var a := |s| - |TrimStart(s)|;
            && 0 <= a <= a + |r| <= |s|
            && r == s[a..a + |r|]
            && (forall i | 0 <= i < a :: IsSpace(s[i]))
            && (forall i | a + |r| <= i < |s| :: IsSpace(s[i]))
  {
    var t := TrimStart(s);
    var r := TrimEnd(t);
    StripParts(s, t, r);
    r
  }

  lemma StripParts(s: string, t: string, r: string)
    requires |t| <= |s| && t == s[|s| - |t|..]
    requires |r| <= |t| && r == t[..|r|]
    requires forall i | |r| <= i < |t| :: IsSpace(t[i])
    ensures var a := |s| - |t|;
            && r == s[a..a + |r|]
            && (forall i | a + |r| <= i < |s| :: IsSpace(s[i]))
  {
    var a := |s| - |t|;
    forall i | a + |r| <= i < |s| ensures IsSpace(s[i]) {
      assert s[i] == t[i - a];
    }
  }

  /** Python's `s.split(sep)` with a one-character separator. */
  function Split(s: string, sep: char): (parts: seq<string>)
    ensures |parts| >= 1
  {
    if |s| == 0 then [""]
    else
      var rest := Split(s[1..], sep);
      if s[0] == sep then [""] + rest else [[s[0]] + rest[0]] + rest[1..]
  }

  /** Python's `sep.join(parts)`. */
  function Join(parts: seq<string>, sep: char): string
    requires |parts| >= 1
  {
    if |parts| == 1 then parts[0] else parts[0] + [sep] + Join(parts[1..], sep)
  }

  /** No piece of a split contains the separator, and joining the pieces
      gives back the original text. */
  lemma {:induction false} SplitJoin(s: string, sep: char)
    ensures Join(Split(s, sep), sep) == s
    ensures forall p | p in Split(s, sep) :: sep !in p
  {
    if |s| > 0 {
      SplitJoin(s[1..], sep);
      var rest := Split(s[1..], sep);
      if s[0] == sep {
        assert Split(s, sep)[1..] == rest;
      } else {
        var parts := Split(s, sep);
        assert parts[1..] == rest[1..];
        if |rest| > 1 {
          assert rest == [rest[0]] + rest[1..];
        }
        assert s == [s[0]] + s[1..];
      }
    }
  }

  /** Splitting text joined from separator-free pieces gives back the pieces. */
  lemma {:induction false} JoinSplit(parts: seq<string>, sep: char)
    requires |parts| >= 1
    requires forall p | p in parts :: sep !in p
    ensures Split(Join(parts, sep), sep) == parts
    decreases |parts|, |parts[0]|
  {
    if |parts[0]| > 0 {
      var p0 := parts[0];
      var shorter := [p0[1..]] + parts[1..];
      assert forall p | p in shorter :: sep !in p by {
        forall p | p in shorter ensures sep !in p {
          if p != p0[1..] { assert p in parts; } else { assert p0 in parts; }
        }
      }
      JoinSplit(shorter, sep);
      assert p0 in parts;
      var j := Join(parts, sep);
      assert j == [p0[0]] + Join(shorter, sep) by {
        if |parts| > 1 {
          assert shorter[1..] == parts[1..];
        }
      }
      assert j[1..] == Join(shorter, sep);
      assert Split(j, sep) == [[p0[0]] + p0[1..]] + parts[1..];
      assert [p0[0]] + p0[1..] == p0;
    } else if |parts| > 1 {
      var tail := parts[1..];
      assert forall p | p in tail :: sep !in p;
      JoinSplit(tail, sep);
      var j := Join(parts, sep);
      assert j == [sep] + Join(tail, sep);
      assert j[1..] == Join(tail, sep);
      assert parts == [""] + tail;
    }
  }

  datatype Commit = Commit(sha: string, message: string, date: string)

  /** What running `git log` produced: its exit status and output, or the
      error raised when it could not be run. */
  datatype GitRun = Exited(returnCode: int, stdout: string) | RunRaised(error: string)

  function ParseCommitLine(line: string): Commit {
    var parts := Split(line, '|');
    Commit(parts[0], if |parts| > 1 then parts[1] else "", if |parts| > 2 then parts[2] else "")
  }

  /** The fields of a parsed line never contain the separator. */
  lemma ParseCommitLineFields(line: string)
    ensures var c := ParseCommitLine(line);
            '|' !in c.sha && '|' !in c.message && '|' !in c.date
  {
    SplitJoin(line, '|');
    var parts := Split(line, '|');
    assert parts[0] in parts;
    if |parts| > 1 { assert parts[1] in parts; }
    if |parts| > 2 { assert parts[2] in parts; }
  }

  /** Lines with a `|` become commits, in order; the others are dropped. */
  function ParseCommits(lines: seq<string>): (cs: seq<Commit>)
    ensures |cs| <= |lines|
    ensures (forall l | l in lines :: '|' !in l) ==> cs == []
    ensures forall c | c in cs :: '|' !in c.sha && '|' !in c.message && '|' !in c.date
  {
    if |lines| == 0 then []
    else
      var rest := ParseCommits(lines[1..]);
      assert forall l | l in lines[1..] :: l in lines;
      ParseCommitLineFields(lines[0]);
      (if '|' in lines[0] then [ParseCommitLine(lines[0])] else []) + rest
  }

  /** `get_git_history` after git has run with `--pretty=format:%H|%s|%ai`:
      nothing when git could not run or exited non-zero, otherwise at most
      one commit per output line. */
  function GetGitHistory(run: GitRun): (cs: seq<Commit>)
    ensures run.RunRaised? || run.returnCode != 0 ==> cs == []
    ensures run.Exited? && run.returnCode == 0 ==> |cs| <= |Split(Strip(run.stdout), '\n')|
  {
    match run
    case RunRaised(_) => []
    case Exited(code, out) => if code != 0 then [] else ParseCommits(Split(Strip(out), '\n'))
  }

  /** One commit as git prints it with `%H|%s|%ai`. */
  function FormatCommit(c: Commit): string {
    c.sha + "|" + c.message + "|" + c.date
  }

  function FormatLines(cs: seq<Commit>): (lines: seq<string>)
    ensures |lines| == |cs|
    ensures forall i | 0 <= i < |cs| :: lines[i] == FormatCommit(cs[i])
  {
    if |cs| == 0 then [] else [FormatCommit(cs[0])] + FormatLines(cs[1..])
  }

  /** The whole output of `git log` for these commits, newest first. */
  function FormatLog(cs: seq<Commit>): string {
    if |cs| == 0 then "" else Join(FormatLines(cs), '\n')
  }

  /** A commit git can print so that the line splits back into it. */
  predicate Printable(c: Commit) {
    && '|' !in c.sha && '|' !in c.message && '|' !in c.date
    && '\n' !in c.sha && '\n' !in c.message && '\n' !in c.date
    && |c.sha| > 0 && !IsSpace(c.sha[0])
    && (|c.date| > 0 ==> !IsSpace(c.date[|c.date| - 1]))
  }

  lemma ParseFormattedCommit(c: Commit)
    requires Printable(c)
    ensures '|' in FormatCommit(c)
    ensures ParseCommitLine(FormatCommit(c)) == c
  {
    var line := FormatCommit(c);
    var parts := [c.sha, c.message, c.date];
    assert parts[1..] == [c.message, c.date] && parts[1..][1..] == [c.date];
    assert Join([c.message, c.date], '|') == c.message + "|" + c.date;
    assert line == Join(parts, '|');
    JoinSplit([c.sha, c.message, c.date], '|');
    assert line[|c.sha|] == '|';
  }

  lemma {:induction false} ParseFormattedLines(cs: seq<Commit>)
    requires forall c | c in cs :: Printable(c)
    ensures ParseCommits(FormatLines(cs)) == cs
  {
    if |cs| > 0 {
      ParseFormattedCommit(cs[0]);
      ParseFormattedLines(cs[1..]);
      assert FormatLines(cs)[1..] == FormatLines(cs[1..]);
    }
  }

  lemma {:induction false} JoinBounds(parts: seq<string>, sep: char)
    requires |parts| >= 1
    ensures |Join(parts, sep)| >= |parts[0]| && Join(parts, sep)[..|parts[0]|] == parts[0]
    ensures var last := parts[|parts| - 1]; var j := Join(parts, sep);
            |j| >= |last| && j[|j| - |last|..] == last
  {
    if |parts| > 1 {
      JoinBounds(parts[1..], sep);
    }
  }

  /** Text that starts and ends with a non-space is left alone by `strip`. */
  lemma StripUnchanged(s: string)
    requires |s| > 0 && !IsSpace(s[0]) && !IsSpace(s[|s| - 1])
    ensures Strip(s) == s
  {
    assert TrimStart(s) == s;
  }

  lemma FormatLinesSeparatorFree(cs: seq<Commit>)
    requires forall c | c in cs :: Printable(c)
    ensures forall l | l in FormatLines(cs) :: '\n' !in l
  {
    var lines := FormatLines(cs);
    forall l | l in lines ensures '\n' !in l {
      var i :| 0 <= i < |lines| && lines[i] == l;
      assert cs[i] in cs;
    }
  }

  /** The log git prints for printable commits neither starts nor ends with
      whitespace. */
  lemma FormatLogTrimmed(cs: seq<Commit>)
    requires |cs| > 0 && forall c | c in cs :: Printable(c)
    ensures var out := FormatLog(cs); |out| > 0 && !IsSpace(out[0]) && !IsSpace(out[|out| - 1])
  {
    var lines := FormatLines(cs);
    var out := FormatLog(cs);
    JoinBounds(lines, '\n');
    assert cs[0] in cs && cs[|cs| - 1] in cs;
    var first := lines[0];
    var last := lines[|lines| - 1];
    var lc := cs[|cs| - 1];
    assert first[0] == cs[0].sha[0];
    assert out[0] == first[0];
    assert out[|out| - 1] == last[|last| - 1];
    assert last == lc.sha + "|" + lc.message + "|" + lc.date;
    if |lc.date| == 0 {
      assert last[|last| - 1] == '|';
    } else {
      assert last[|last| - 1] == lc.date[|lc.date| - 1];
    }
  }

  lemma GitHistoryOfLines(out: string, lines: seq<string>)
    requires Strip(out) == out && Split(out, '\n') == lines
    ensures GetGitHistory(Exited(0, out)) == ParseCommits(lines)
  {
  }

  /** git's output for printable commits parses back into the same commits. */
  lemma GitHistoryRoundTrip(cs: seq<Commit>)
    requires forall c | c in cs :: Printable(c)
    ensures GetGitHistory(Exited(0, FormatLog(cs))) == cs
  {
    if |cs| == 0 {
      assert Split("", '\n') == [""];
    } else {
      var lines := FormatLines(cs);
      var out := FormatLog(cs);
      assert out == Join(lines, '\n');
      FormatLogTrimmed(cs);
      StripUnchanged(out);
      FormatLinesSeparatorFree(cs);
      JoinSplit(lines, '\n');
      ParseFormattedLines(cs);
      GitHistoryOfLines(out, lines);
    }
  }

  // ---------------------------------------------------------------------------
  // Rollback

  /** How one `subprocess.run(..., check=True)` call ended. */
  datatype CommandRun =
    | ExitedZero
    | ExitedNonZero(error: string)
    | LaunchFailed(error: string)

  datatype GitCommand = CreateBranch(name: string) | CheckoutCommit(sha: string)

  datatype RollbackResult =
    | DryRunRollback(commit: string, message: string)
    | RolledBack(commit: string, backupBranch: string)
    | RollbackFailed(commit: string, error: string)
  {
    predicate Success() {
      DryRunRollback? || RolledBack?
    }
  }

  /** The method returned a result, or an error escaped it. */
  datatype RollbackOutcome = Returned(result: RollbackResult) | Propagated(error: string)

  function BackupBranchName(stamp: string): string {
    "pre_rollback_" + stamp
  }

  class RollbackManager {
    const appDir: string
    var rollbackHistory: seq<RollbackResult>

    constructor (appDir: string)
      ensures this.appDir == appDir && rollbackHistory == []
    {
      this.appDir := appDir;
      rollbackHistory := [];
    }

    /** A dry run only describes the checkout. A live run creates the safety
        branch, and checks out the commit only if that worked; a non-zero
        exit of either becomes a failed result. Every returned result is
        appended to the history. */
    method RollbackToCommit(sha: string, dryRun: bool, stamp: string,
                            branchRun: CommandRun, checkoutRun: CommandRun)
      returns (outcome: RollbackOutcome, issued: seq<GitCommand>)
      modifies this`rollbackHistory
      ensures dryRun ==>
                issued == [] && outcome == Returned(DryRunRollback(sha, "Would execute: git checkout " + sha))
      ensures !dryRun ==> |issued| >= 1 && issued[0] == CreateBranch(BackupBranchName(stamp))
      ensures !dryRun ==>
                (issued == [CreateBranch(BackupBranchName(stamp)), CheckoutCommit(sha)] <==> branchRun == ExitedZero)
      ensures !dryRun ==> (outcome.Propagated? <==> branchRun.LaunchFailed? || (branchRun == ExitedZero && checkoutRun.LaunchFailed?))
      ensures outcome.Returned? ==>
                (outcome.result.Success() <==> dryRun || (branchRun == ExitedZero && checkoutRun == ExitedZero))
      ensures outcome.Returned? && outcome.result.RolledBack? ==> outcome.result.backupBranch == BackupBranchName(stamp)
      ensures outcome.Returned? ==> outcome.result.commit == sha
      ensures outcome.Returned? ==> rollbackHistory == old(rollbackHistory) + [outcome.result]
      ensures outcome.Propagated? ==> rollbackHistory == old(rollbackHistory)
    {
      issued := [];
      var result: RollbackResult;
      if dryRun {
        result := DryRunRollback(sha, "Would execute: git checkout " + sha);
      } else {
        var branch := BackupBranchName(stamp);
        issued := issued + [CreateBranch(branch)];
        match branchRun
        case LaunchFailed(e) =>
          return Propagated(e), issued;
        case ExitedNonZero(e) =>
          result := RollbackFailed(sha, e);
        case ExitedZero =>
          issued := issued + [CheckoutCommit(sha)];
          match checkoutRun
          case LaunchFailed(e) =>
            return Propagated(e), issued;
          case ExitedNonZero(e) =>
            result := RollbackFailed(sha, e);
          case ExitedZero =>
            result := RolledBack(sha, branch);
      }
      rollbackHistory := rollbackHistory + [result];
      outcome := Returned(result);
    }
  }
}
