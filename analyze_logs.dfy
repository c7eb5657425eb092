/** The offline analysis of the honeypot's log: the connection, authentication and command
    figures, the masked password list, the truncated command list and the brute-force rule.
    The printing and the ordering of the most-common lists are left to the report's reader. */
module AnalyzeLogs {
  import opened Wrappers
  import opened Seqs
  import opened Text
  import opened HoneypotLog
  import opened Honeypot

  /** The number of failed attempts an address needs to be reported as brute force. */
  const BruteForceThreshold := 3

  /** Commands are shown truncated to this many characters. */
  const CommandWidth := 50

  /** A password longer than 3 characters is shown as one star per character, a shorter one as
      exactly three stars; no character of the password is ever shown. */
  function MaskPassword(password: string): (masked: string)
    ensures |password| > 3 ==> |masked| == |password|
    ensures |password| <= 3 ==> masked == "***"
    ensures forall i :: 0 <= i < |masked| ==> masked[i] == '*'
  {
    if |password| > 3 then Stars(|password|) else "***"
  }

  /** The mask depends on the password's length alone, and is never shorter than three stars. */
  lemma MaskDependsOnlyOnLength(p: string, q: string)
    requires |p| == |q| || (|p| <= 3 && |q| <= 3)
    ensures MaskPassword(p) == MaskPassword(q)
    ensures |MaskPassword(p)| >= 3
  {
  }

  /** `log.get("password", "unknown")`, masked: a record without a password shows as seven stars,
      the length of "unknown". */
  function ShownPassword(r: Record): (shown: string)
    ensures |shown| >= 3 && forall i :: 0 <= i < |shown| ==> shown[i] == '*'
    ensures r.password.None? ==> shown == Stars(7)
    ensures r.password.Some? && |r.password.value| > 3 ==> |shown| == |r.password.value|
  {
    MaskPassword(r.password.GetOr("unknown"))
  }

  predicate IsConnectionStart(r: Record) { r.eventType == Some(ConnectionStart) }

  /** `[log for log in logs if log.get("event_type") == "connection_start"]` */
  function Connections(logs: seq<Record>): (c: seq<Record>)
    ensures forall r :: r in c <==> r in logs && r.eventType == Some(ConnectionStart)
  {
    Filter(logs, IsConnectionStart)
  }

  /** `log.get("command", "unknown")[:50]`: the first 50 characters, or all of a shorter one. */
  function ShownCommand(r: Record): (c: string)
    ensures var full := r.command.GetOr("unknown");
      c <= full && |c| == if |full| <= CommandWidth then |full| else CommandWidth
  {
    Take(r.command.GetOr("unknown"), CommandWidth)
  }

  /** cmd_list: one truncated entry per command record, in order. */
  function CommandList(commands: seq<Record>): (cmds: seq<string>)
    ensures |cmds| == |commands|
    ensures forall i :: 0 <= i < |cmds| ==>
      var full := commands[i].command.GetOr("unknown");
      cmds[i] <= full && |cmds[i]| == if |full| <= CommandWidth then |full| else CommandWidth
  {
    seq(|commands|, i requires 0 <= i < |commands| => ShownCommand(commands[i]))
  }

  // Brute-force detection

  /** The number of failed attempts from `ip` among `auths`: `failed_by_ip[ip]`. */
  function FailedFrom(auths: seq<Record>, ip: Option<string>): (n: nat)
    ensures n <= |auths|
    ensures n == 0 <== forall i :: 0 <= i < |auths| ==> Succeeded(auths[i]) || auths[i].sourceIp != ip
    decreases |auths|
  {
    if auths == [] then 0
    else
      var last := auths[|auths| - 1];
      FailedFrom(auths[..|auths| - 1], ip) + (if Failed(last) && last.sourceIp == ip then 1 else 0)
  }

  /** What the honeypot logs of a command and what the analysis shows of it agree: the analysis
      shows the first 50 characters the attacker sent, however long the logged command was. */
  lemma LoggedCommandShown(ip: string, more: string)
    requires more != ""
    ensures ShownCommand(CommandRecord(ip, CommandToLog(more).value)) == Take(more, CommandWidth)
  {
    TakeTake(more, CommandLimit, CommandWidth);
  }

  /** An attempt that succeeded never adds to any address's count; a failed one adds exactly one,
      to its own address. */
  lemma SuccessNeverCounts(auths: seq<Record>, r: Record, ip: Option<string>)
    ensures Succeeded(r) ==> FailedFrom(auths + [r], ip) == FailedFrom(auths, ip)
    ensures Failed(r) ==> FailedFrom(auths + [r], ip) == FailedFrom(auths, ip) + (if r.sourceIp == ip then 1 else 0)
  {
    assert (auths + [r])[..|auths|] == auths;
  }

  /** The count is the number of failed attempts of that address, counted by filtering. */
  lemma {:induction false} FailedFromIsFilter(auths: seq<Record>, ip: Option<string>)
    ensures FailedFrom(auths, ip) == |Filter(auths, (r: Record) => Failed(r) && r.sourceIp == ip)|
    decreases |auths|
  {
    if auths != [] {
      var init, last := auths[..|auths| - 1], auths[|auths| - 1];
      assert auths == init + [last];
      FailedFromIsFilter(init, ip);
      FilterAppend(init, [last], (r: Record) => Failed(r) && r.sourceIp == ip);
    }
  }

  /** The defaultdict loop over the authentication attempts: an address gets an entry at its first
      failed attempt and one more per further failed attempt; successful attempts are skipped. */
  method CountFailedByIp(auths: seq<Record>) returns (counts: map<Option<string>, nat>)
    ensures forall ip :: ip in counts <==> FailedFrom(auths, ip) > 0
    ensures forall ip :: ip in counts ==> counts[ip] == FailedFrom(auths, ip)
  {
    counts := map[];
    var i := 0;
    while i < |auths|
      invariant 0 <= i <= |auths|
      invariant forall ip :: ip in counts <==> FailedFrom(auths[..i], ip) > 0
      invariant forall ip :: ip in counts ==> counts[ip] == FailedFrom(auths[..i], ip)
    {
      var r := auths[i];
      assert auths[..i + 1] == auths[..i] + [r];
      SuccessNeverCounts(auths[..i], r, r.sourceIp);
      forall ip | ip != r.sourceIp
        ensures FailedFrom(auths[..i + 1], ip) == FailedFrom(auths[..i], ip)
      {
        SuccessNeverCounts(auths[..i], r, ip);
      }
      if !Succeeded(r) {
        var ip := r.sourceIp;
        var before := if ip in counts then counts[ip] else 0;
        counts := counts[ip := before + 1];
      }
      i := i + 1;
    }
    assert auths[..i] == auths;
  }

  /** brute_force_ips: the addresses with at least three failed attempts (or missing success). */
  method BruteForceIps(auths: seq<Record>) returns (ips: set<Option<string>>)
    ensures forall ip :: ip in ips <==> FailedFrom(auths, ip) >= BruteForceThreshold
  {
    var counts := CountFailedByIp(auths);
    ips := set ip | ip in counts && counts[ip] >= BruteForceThreshold;
  }

  /** The figures analyze_logs prints, in the order it prints them. */
  datatype Report = Report(
    totalEvents: nat,
    uniqueIps: nat,
    connections: nat,
    authenticationAttempts: nat,
    shownPasswords: seq<string>,
    failed: nat,
    successful: nat,
    commandsExecuted: nat,
    shownCommands: seq<string>,
    bruteForceIps: set<Option<string>>)

  /** analyze_logs on the loaded records: nothing is analysed when there are none. */
  method Analyze(logs: seq<Record>) returns (report: Option<Report>)
    ensures report.None? <==> logs == []
    ensures report.Some? ==>
      var rep := report.value;
      var auths := AuthenticationAttempts(logs);
      && rep.totalEvents == |logs|
      && rep.uniqueIps == |Image(logs, SourceIp)| && 1 <= rep.uniqueIps <= rep.totalEvents
      && rep.connections == |Connections(logs)|
      && rep.authenticationAttempts == |auths|
      && |rep.shownPasswords| == |auths|
      && (forall i :: 0 <= i < |auths| ==> rep.shownPasswords[i] == ShownPassword(auths[i]))
      && rep.failed + rep.successful == rep.authenticationAttempts
      && rep.failed == |FailedLogins(auths)|
      && rep.commandsExecuted == |Commands(logs)|
      && rep.shownCommands == CommandList(Commands(logs))
      && (forall ip :: ip in rep.bruteForceIps <==> FailedFrom(auths, ip) >= BruteForceThreshold)
  {
    if logs == [] {
      return None;
    }
    var auths := AuthenticationAttempts(logs);
    var commands := Commands(logs);
    var passwords := seq(|auths|, i requires 0 <= i < |auths| => ShownPassword(auths[i]));
    FailedPlusSuccessful(auths);
    var bruteForce := BruteForceIps(auths);
    report := Some(Report(
      |logs|,
      |Image(logs, SourceIp)|,
      |Connections(logs)|,
      |auths|,
      passwords,
      |FailedLogins(auths)|,
      |SuccessfulLogins(auths)|,
      |commands|,
      CommandList(commands),
      bruteForce));
  }
}
