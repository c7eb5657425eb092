/** The honeypot's log: the JSON-lines records it writes, the reader that loads them back, and
    the statistics computed over them.

    A record is the parsed JSON object, reduced to the keys the statistics and the analysis read;
    every key may be missing, so each field is an `Option`. Parsing one line is a function the
    caller supplies. */
module HoneypotLog {
  import opened Wrappers
  import opened Seqs
  import opened Text

  datatype Record = Record(
    sourceIp: Option<string>,
    eventType: Option<string>,
    success: Option<bool>,
    username: Option<string>,
    password: Option<string>,
    command: Option<string>)

  const ConnectionStart := "connection_start"
  const ConnectionEnd := "connection_end"
  const AuthenticationAttempt := "authentication_attempt"
  const CommandExecuted := "command_executed"

  /** log_connection_start: counted as an event of the address, neither an attempt nor a command */
  function StartRecord(ip: string): (r: Record)
    ensures r.sourceIp == Some(ip) && r.eventType == Some(ConnectionStart)
    ensures !IsAuthentication(r) && !IsCommand(r)
  {
    Record(Some(ip), Some(ConnectionStart), None, None, None, None)
  }

  /** log_connection_end: counted as an event of the address, neither an attempt nor a command */
  function EndRecord(ip: string): (r: Record)
    ensures r.sourceIp == Some(ip) && r.eventType == Some(ConnectionEnd)
    ensures !IsAuthentication(r) && !IsCommand(r)
  {
    Record(Some(ip), Some(ConnectionEnd), None, None, None, None)
  }

  /** log_authentication_attempt: an attempt, failed exactly when `success` is false; the record
      keeps the password in clear, only the message masks it. */
  function AuthRecord(ip: string, username: string, password: string, success: bool): (r: Record)
    ensures IsAuthentication(r) && !IsCommand(r) && r.sourceIp == Some(ip)
    ensures Succeeded(r) == success
    ensures r.username == Some(username) && r.password == Some(password)
  {
    Record(Some(ip), Some(AuthenticationAttempt), Some(success), Some(username), Some(password), None)
  }

  /** log_command: a command, never an attempt */
  function CommandRecord(ip: string, command: string): (r: Record)
    ensures IsCommand(r) && !IsAuthentication(r) && r.sourceIp == Some(ip)
    ensures r.command == Some(command)
  {
    Record(Some(ip), Some(CommandExecuted), None, None, None, Some(command))
  }

  // The password mask of the log message

  /** `'*' * n` */
  function Stars(n: nat): (r: string)
    ensures |r| == n
    ensures forall i :: 0 <= i < n ==> r[i] == '*'
    decreases n
  {
    if n == 0 then [] else Stars(n - 1) + "*"
  }

  /** The message of log_authentication_attempt: the user name in clear, the password as stars. */
  function AuthMessage(username: string, password: string): (m: string)
    ensures "Login attempt: " + username + " / " <= m
    ensures |m| == |"Login attempt: " + username + " / "| + |password|
  {
    "Login attempt: " + username + " / " + Stars(|password|)
  }

  /** The message shows exactly one star per password character and nothing else of it: two
      passwords of the same length give the same message. */
  lemma AuthMessageMasksPassword(username: string, password: string, other: string)
    requires |other| == |password|
    ensures AuthMessage(username, password) == AuthMessage(username, other)
    ensures var m := AuthMessage(username, password);
      var tail := m[|m| - |password|..];
      |tail| == |password| && forall i :: 0 <= i < |tail| ==> tail[i] == '*'
  {
  }

  // Reading the log file back

  /** A line `get_logs` keeps: not blank, and accepted by the JSON parser. */
  predicate Loadable(line: string, parse: string -> Option<Record>) {
    !IsBlank(line) && parse(line).Some?
  }

  /** get_logs on the lines of the file: blank lines are skipped, and so is every line the JSON
      parser rejects; the others are kept in file order. */
  function ParsedLines(lines: seq<string>, parse: string -> Option<Record>): (logs: seq<Record>)
    ensures |logs| <= |lines|
    decreases |lines|
  {
    if lines == [] then []
    else
      var last := lines[|lines| - 1];
      var kept := ParsedLines(lines[..|lines| - 1], parse);
      if Loadable(last, parse) then kept + [parse(last).value] else kept
  }

  /** Reading two pieces of a file one after the other gives the records of both, in order. */
  lemma {:induction false} ParsedLinesAppend(a: seq<string>, b: seq<string>, parse: string -> Option<Record>)
    ensures ParsedLines(a + b, parse) == ParsedLines(a, parse) + ParsedLines(b, parse)
    decreases |b|
  {
    if b == [] {
      assert a + b == a;
    } else {
      var ab := a + b;
      assert ab[..|ab| - 1] == a + b[..|b| - 1];
      assert ab[|ab| - 1] == b[|b| - 1];
      ParsedLinesAppend(a, b[..|b| - 1], parse);
    }
  }

  /** Every loaded record is the parse of some non-blank line of the file. */
  lemma {:induction false} ParsedLinesSound(lines: seq<string>, parse: string -> Option<Record>, k: nat)
    requires k < |ParsedLines(lines, parse)|
    ensures exists j :: 0 <= j < |lines| && !IsBlank(lines[j]) && parse(lines[j]) == Some(ParsedLines(lines, parse)[k])
    decreases |lines|
  {
    var init := lines[..|lines| - 1];
    var kept := ParsedLines(init, parse);
    if k < |kept| {
      ParsedLinesSound(init, parse, k);
      var j :| 0 <= j < |init| && !IsBlank(init[j]) && parse(init[j]) == Some(kept[k]);
      assert lines[j] == init[j];
    } else {
      var j := |lines| - 1;
      assert !IsBlank(lines[j]) && parse(lines[j]) == Some(ParsedLines(lines, parse)[k]);
    }
  }

  /** Loading is the comprehension `[json.loads(l) for l in lines if l.strip()]` with the lines the
      parser rejects left out: filter the loadable lines, then parse each of them. */
  lemma {:induction false} ParsedLinesIsComprehension(lines: seq<string>, parse: string -> Option<Record>)
    ensures ParsedLines(lines, parse)
         == Map(Filter(lines, l => Loadable(l, parse)), l requires Loadable(l, parse) => parse(l).value)
    decreases |lines|
  {
    if lines != [] {
      var init, last := lines[..|lines| - 1], lines[|lines| - 1];
      assert lines == init + [last];
      ParsedLinesIsComprehension(init, parse);
      FilterAppend(init, [last], l => Loadable(l, parse));
      assert [last][1..] == [];
    }
  }

  /** get_logs / load_logs: no file gives no records; otherwise the lines are read in order,
      keeping the records of the non-blank lines that parse. */
  method LoadLogs(file: Option<seq<string>>, parse: string -> Option<Record>) returns (logs: seq<Record>)
    ensures file.None? ==> logs == []
    ensures file.Some? ==> logs == ParsedLines(file.value, parse)
  {
    if file.None? {
      return [];
    }
    var lines := file.value;
    logs := [];
    var i := 0;
    while i < |lines|
      invariant 0 <= i <= |lines|
      invariant logs == ParsedLines(lines[..i], parse)
    {
      var line := lines[i];
      assert lines[..i + 1][..i] == lines[..i];
      if !IsBlank(line) {
        match parse(line)
        case Some(record) => logs := logs + [record];
        case None =>
      }
      i := i + 1;
    }
    assert lines[..i] == lines;
  }

  // Statistics

  predicate IsAuthentication(r: Record) { r.eventType == Some(AuthenticationAttempt) }

  predicate IsCommand(r: Record) { r.eventType == Some(CommandExecuted) }

  /** `log.get("success", False)`: a missing flag reads as a failure. */
  predicate Succeeded(r: Record) { r.success.GetOr(false) }

  predicate Failed(r: Record) { !Succeeded(r) }

  function SourceIp(r: Record): Option<string> { r.sourceIp }

  function AuthenticationAttempts(logs: seq<Record>): seq<Record> { Filter(logs, IsAuthentication) }

  function FailedLogins(auths: seq<Record>): seq<Record> { Filter(auths, Failed) }

  function SuccessfulLogins(auths: seq<Record>): seq<Record> { Filter(auths, Succeeded) }

  function Commands(logs: seq<Record>): seq<Record> { Filter(logs, IsCommand) }

  /** Every authentication attempt is counted exactly once, as failed or as successful. */
  lemma FailedPlusSuccessful(auths: seq<Record>)
    ensures |FailedLogins(auths)| + |SuccessfulLogins(auths)| == |auths|
  {
    FilterComplement(auths, Succeeded, Failed);
  }

  /** A record is never both an authentication attempt and a command. */
  lemma AuthenticationsAndCommandsDisjoint(logs: seq<Record>)
    ensures |AuthenticationAttempts(logs)| + |Commands(logs)| <= |logs|
  {
    FilterDisjoint(logs, IsAuthentication, IsCommand);
  }

  datatype Statistics = Statistics(
    totalConnections: nat,
    uniqueIps: nat,
    authenticationAttempts: nat,
    failedLogins: nat,
    successfulLogins: nat,
    commandsExecuted: nat)

  /** get_statistics over the loaded records. */
  function GetStatistics(logs: seq<Record>): (s: Statistics)
    ensures logs == [] ==> s == Statistics(0, 0, 0, 0, 0, 0)
    ensures s.totalConnections == |logs|
    ensures s.failedLogins + s.successfulLogins == s.authenticationAttempts
    ensures s.authenticationAttempts + s.commandsExecuted <= s.totalConnections
    ensures s.uniqueIps <= s.totalConnections && (logs != [] ==> s.uniqueIps >= 1)
  {
    if logs == [] then Statistics(0, 0, 0, 0, 0, 0)
    else
      var auths := AuthenticationAttempts(logs);
      FailedPlusSuccessful(auths);
      AuthenticationsAndCommandsDisjoint(logs);
      Statistics(
        |logs|,
        |Image(logs, SourceIp)|,
        |auths|,
        |FailedLogins(auths)|,
        |SuccessfulLogins(auths)|,
        |Commands(logs)|)
  }

  /** The statistics count every record once, whatever its event type: appending records adds
      their counts to the totals. */
  lemma {:induction false} StatisticsAdd(a: seq<Record>, b: seq<Record>)
    ensures var s, sa, sb := GetStatistics(a + b), GetStatistics(a), GetStatistics(b);
      && s.totalConnections == sa.totalConnections + sb.totalConnections
      && s.authenticationAttempts == sa.authenticationAttempts + sb.authenticationAttempts
      && s.failedLogins == sa.failedLogins + sb.failedLogins
      && s.successfulLogins == sa.successfulLogins + sb.successfulLogins
      && s.commandsExecuted == sa.commandsExecuted + sb.commandsExecuted
  {
    if a == [] {
      assert a + b == b;
    } else if b == [] {
      assert a + b == a;
    } else {
      FilterAppend(a, b, IsAuthentication);
      FilterAppend(a, b, IsCommand);
      var aa, ab := AuthenticationAttempts(a), AuthenticationAttempts(b);
      FilterAppend(aa, ab, Failed);
      FilterAppend(aa, ab, Succeeded);
    }
  }
}
