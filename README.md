# Network-security toolkit: knock server, port scanner and SSH honeypot, in Dafny

This project models the decision logic of a small network-security toolkit and proves properties
of it. The toolkit has three parts:

- a **port-knocking server**;
- a **port scanner**;
- an **SSH honeypot** with its log analysis.

**Port-knocking server** (`knock_server.dfy`, module `KnockServer`). The `KnockTracker` keeps
two things per source address:

- the knocks received on the sentinel ports, each with its time;
- the grants currently open on the protected port.

Each knock is handled as follows:

- knocks older than the window are pruned;
- the new knock is appended;
- then the tracker either grants, resets or keeps the progress.

A grant goes through the firewall and leaves an auto-close timer behind.

The class reproduces the source's state changes one by one. The pure function `Step` gives the
per-address meaning of one knock, and `Run` chains it over a series of knocks. Lemmas about
`Step` state what a knock does. They also cover the two behaviours of the code that a reader
might not expect:

- progress need not be a prefix of the sequence, and can then raise `IndexError`;
- an earlier grant's timer also closes a renewed grant.

The module also models the parsing of the `--sequence` argument, which needs at least two ports.

**Port scanner** (`port_scanner.dfy`, module `PortScanner`) covers:

- `identify_service`: banner keywords first, in a fixed priority, then the table of well-known
  ports;
- `parse_port_range`;
- the range check of `main`.

**Honeypot** (`honeypot.dfy`, module `Honeypot`) covers:

- the user-name and password heuristics;
- when credentials are looked for;
- the `"***"` fallback and the 100-character command limit;
- the records a session writes.

**Log** (`honeypot_log.dfy`, module `HoneypotLog`) covers:

- the records;
- the loader, which skips blank and unparsable lines;
- `get_statistics`;
- the password mask of the log message.

**Analysis** (`analyze_logs.dfy`, module `AnalyzeLogs`) covers:

- password masking;
- the connection and command lists;
- the failed/successful split;
- the brute-force rule: at least three failed attempts from one address.

`load_logs` (honeypot/analyze_logs.py:15-29) is the same loop as `get_logs` and is modelled by
`LoadLogs`; `Analyze` takes the records it returns.

Three modules hold what the Python code takes from its runtime:

- `Wrappers`: `Option` and `Result`.
- `Seqs`: list comprehensions as `Filter`, and set comprehensions as `Image`.
- `Text`: ASCII `lower()`, `in` on strings, `isalnum()`, `split()`, `split(sep)`, `str(int)`
  and `int(str)`.

Time is integer ticks supplied by the caller. Each iptables call is represented by its boolean
result, also supplied by the caller, and the tracker records the calls in its `firewall` log.
JSON parsing is a function from a line to an optional record, also supplied by the caller.

Two behaviours of the code matter for what the model proves:

- **Any timer closes the current grant.** A grant carries no generation stamp. The auto-close
  thread calls `close_port_for_ip` unconditionally (port_knocking/knock_server.py:149-151,
  159-163). So `TimerFires` closes whatever grant the address holds, and
  `StaleTimerClosesRenewedGrant` shows a renewed grant closed by the earlier grant's timer.
- **Progress need not be a prefix of the sequence.** Only the newest knock is checked against
  its position (port_knocking/knock_server.py:123-127), while pruning drops knocks from the
  front. Progress can therefore become, for example, 5678, 5678, 9012 for the sequence 1234,
  5678, 9012. The next knock then reads past the end of the sequence and raises `IndexError`.
  This is the `SequenceIndexError` decision. In that case the progress keeps the pruned and
  extended list, because it was assigned before the exception.

## Model

| member | source | states |
|---|---|---|
| `KnockServer.Prune` | port_knocking/knock_server.py:108-111 | pruning is a filter of the stored knocks and never lengthens them |
| `KnockServer.PruneKeepsOrder` | port_knocking/knock_server.py:107-111 | pruning distributes over concatenation, so the survivors keep their original order |
| `KnockServer.PruneKeepsExactlyFresh` | port_knocking/knock_server.py:107-111 | a knock survives exactly when it was stored and its time is strictly after `now - window` |
| `KnockServer.PruneAllFresh` | port_knocking/knock_server.py:107-111 | when no stored knock is older than the cutoff, pruning changes nothing |
| `KnockServer.CheckSequenceMeansSamePorts` | port_knocking/knock_server.py:129-136 | `check_sequence` holds exactly when the list of stored ports equals the sequence |
| `KnockServer.Decide` | port_knocking/knock_server.py:116-127 | on the kept knocks: IndexError exactly when they outnumber the ports; a grant only with as many knocks as ports; a reset only when the new port differs from the one expected at its position, and an extension only when it is that port |
| `KnockServer.Step` | port_knocking/knock_server.py:101-127 | an address is left without progress exactly when its knock granted or reset; its progress grows by at most the new knock |
| `KnockServer.Run` | port_knocking/knock_server.py:101-127 | a series of knocks gets one decision per knock |
| `KnockServer.RunEndsCleared` | port_knocking/knock_server.py:101-127 | after a series of knocks, the address has no progress exactly when the last knock granted or reset, and at most one stored knock more per knock otherwise |
| `KnockServer.StepSpec` | port_knocking/knock_server.py:114-136 | one knock: grant iff the pruned knocks plus the new port spell the whole sequence; IndexError iff the pruned knocks already number at least the sequence's length; reset iff the new port is not the one expected at its position; progress is emptied on grant or reset and is otherwise the pruned knocks plus the new one |
| `KnockServer.StepOnFreshPrefix` | port_knocking/knock_server.py:114-127 | a knock that continues a fresh prefix with the expected port extends it, or grants and clears it when it is the last port |
| `KnockServer.PrefixKeptWhileFresh` | port_knocking/knock_server.py:107-127 | while nothing ages out, progress stays a proper prefix of the sequence and IndexError cannot occur |
| `KnockServer.StuckWhileTooLong` | port_knocking/knock_server.py:108-124 | with at least as many fresh knocks as ports, every knock raises IndexError and the progress grows |
| `KnockServer.GrantUsesOnlyFreshKnocks` | port_knocking/knock_server.py:107-136 | a grant uses only fresh knocks: the completed sequence is the stored knocks newer than `now - window` followed by the knock just received, so knocks spread over more than the window never grant |
| `KnockServer.StaleKnocksNeverGrant` | port_knocking/knock_server.py:107-136 | when every stored knock has aged out, a single knock cannot complete a sequence of two or more ports |
| `KnockServer.InOrderKnocksGrant` | port_knocking/knock_server.py:101-136 | knocking the rest of the sequence in order within one window extends at each knock but the last and grants on the last, leaving no progress |
| `KnockServer.CorrectSequenceGrantsOnce` | port_knocking/knock_server.py:101-136 | from no progress, knocking exactly the sequence within one window grants once, on the last knock |
| `KnockServer.ProgressNotAlwaysPrefix` | port_knocking/knock_server.py:107-125 | with sequence 1234, 5678, 9012 and window 10: knocks 1234@0, 5678@5, 5678@11, 9012@12 leave progress 5678, 5678, 9012, and the knock at 13 raises IndexError |
| `KnockServer.FirstTwoKnocksExtend` | port_knocking/knock_server.py:114-127 | the first two correct knocks of that trace are kept |
| `KnockServer.FirstKnockAgesOut` | port_knocking/knock_server.py:107-114 | at tick 11 the knock of tick 0 is pruned and the repeated 5678 is accepted at position 1 |
| `KnockServer.NonPrefixProgressExtends` | port_knocking/knock_server.py:123-127 | progress 5678, 5678 followed by 9012 is kept, although it does not spell the sequence |
| `KnockServer.NonPrefixProgressRaises` | port_knocking/knock_server.py:124 | three fresh knocks against a three-port sequence make the next knock raise IndexError |
| `KnockServer.SkippedPortResetsThenGrants` | port_knocking/knock_server.py:123-127 | a wrong second port clears the progress, the wrong knock included, and the whole sequence afterwards still grants |
| `KnockServer.KnockTracker.constructor` | port_knocking/knock_server.py:92-99 | a new tracker has no progress, no grants, no timers and no firewall calls |
| `KnockServer.KnockTracker.ClosePortForIp` | port_knocking/knock_server.py:159-163 | no grant means no effect; otherwise one revoke call is made and the grant is deleted whatever the revoke reported |
| `KnockServer.KnockTracker.OpenPortForIp` | port_knocking/knock_server.py:138-157 | an existing grant is closed first; the allow call is made; the grant and its timer are recorded only if the firewall accepted, so a failed grant leaves no entry |
| `KnockServer.KnockTracker.TimerFires` | port_knocking/knock_server.py:149-151 | the auto-close thread closes whatever grant the address holds, with no generation check, and is gone afterwards |
| `KnockServer.KnockTracker.PruneAndAppend` | port_knocking/knock_server.py:107-114 | the address's progress becomes its pruned knocks plus the new knock; nothing else changes |
| `KnockServer.KnockTracker.Conclude` | port_knocking/knock_server.py:116-127 | on the extended progress: a full match grants and clears; otherwise IndexError, a reset on a wrong port, or the progress is kept |
| `KnockServer.KnockTracker.RecordKnock` | port_knocking/knock_server.py:101-127 | the decision and new progress are those of `Step`; no other address's progress or grant changes; only a grant touches the firewall, the grants and the timers; every grant keeps a pending timer |
| `KnockServer.StaleTimerClosesRenewedGrant` | port_knocking/knock_server.py:138-163 | a grant renewed before the first timer fires is closed when that timer fires |
| `KnockServer.ParseKnockSequence` | port_knocking/knock_server.py:266-273 | an accepted sequence has at least two ports |
| `KnockServer.ParsePorts` | port_knocking/knock_server.py:268-270 | the pieces are accepted exactly when every one of them is an integer, and then port i is the integer of piece i |
| `KnockServer.ParseShowAll` | port_knocking/knock_server.py:268 | integers written in decimal are read back as the same integers |
| `KnockServer.KnockSequenceRoundTrip` | port_knocking/knock_server.py:266-273 | a comma-joined list of integers parses to itself when it has at least two, and is refused with "at least 2 ports" otherwise |
| `PortScanner.BannerService` | port_scanner/main.py:79-90 | a banner can only yield one of the five banner names |
| `PortScanner.IdentifyService` | port_scanner/main.py:54-93 | the result is a banner name, a port-table value, or "Unknown" |
| `PortScanner.FirstMatch` | port_scanner/main.py:81-90 | a first-match rule table: there is a result iff some rule's keyword occurs, and it is the name of the earliest such rule |
| `PortScanner.BannerServiceIsFirstMatch` | port_scanner/main.py:81-90 | the if-chain is the first-match rule over the table ssh; http, apache, nginx; mysql; redis; postgres |
| `PortScanner.SshInAnyCase` | port_scanner/main.py:79-82 | "ssh" in any letter case anywhere in the banner gives "SSH", whatever the port |
| `PortScanner.TableWhenBannerSaysNothing` | port_scanner/main.py:60-93 | with no banner, an empty one, or one without keywords, the result is the table entry or "Unknown" |
| `PortScanner.BannerBeatsTable` | port_scanner/main.py:79-93 | a banner with a keyword decides over the table, by the first matching rule |
| `PortScanner.ParsePortRange` | port_scanner/main.py:189-204 | a string without '-' that parses gives a one-port range |
| `PortScanner.ValidatePortRange` | port_scanner/main.py:284-290 | accepted iff the string parses and 1 <= start <= end <= 65535, and then it is the parsed range |
| `PortScanner.SinglePortRoundTrip` | port_scanner/main.py:202-204 | `str(p)` parses to (p, p) |
| `PortScanner.RangeRoundTrip` | port_scanner/main.py:199-201 | `str(a) + "-" + str(b)` parses to (a, b), splitting at the first '-' only, even for a negative end |
| `PortScanner.ValidRangeAccepted` | port_scanner/main.py:284-290 | a written range within 1..65535 in increasing order is accepted as written |
| `PortScanner.LeadingMinusRejected` | port_scanner/main.py:199-201 | a leading '-' leaves an empty start, so "-p" is an error |
| `PortScanner.BadRangeRefused` | port_scanner/main.py:284-290 | a reversed or out-of-bounds range is refused although it parses |
| `Honeypot.FirstContained` | honeypot/honeypot.py:119-121 | the result is the earliest candidate occurring in the text, and None iff none occurs |
| `Honeypot.FirstQualifying` | honeypot/honeypot.py:124-127 | the result is the earliest word longer than 2 characters made only of letters and digits, and None iff there is none |
| `Honeypot.ExtractUsername` | honeypot/honeypot.py:116-129 | the user name is never empty (always at least 3 characters) |
| `Honeypot.UsernameChoice` | honeypot/honeypot.py:116-129 | the user name is the first fake user, in list order, that the lowercased data contains; else the first qualifying word of the data, which is never a fake user; else "unknown" |
| `Honeypot.UsernameFromFakeUsers` | honeypot/honeypot.py:119-121 | when the data names a fake user in any case, the user name is the earliest one in the list it names |
| `Honeypot.UsernameFromWords` | honeypot/honeypot.py:122-127 | when it names none, the user name is the earliest qualifying word, which cannot be a fake user |
| `Honeypot.AdminInAnyCase` | honeypot/honeypot.py:119-121 | "admin" in any case anywhere in the data gives user name "admin" |
| `Honeypot.ExtractPassword` | honeypot/honeypot.py:131-141 | a found password is a common password occurring in the lowercased data |
| `Honeypot.PasswordInAnyCase` | honeypot/honeypot.py:134-141 | "password" in any case anywhere in the data gives password "password" |
| `Honeypot.PasswordDataTriggers` | honeypot/honeypot.py:72 | data naming "password" in any case triggers the credential search |
| `Honeypot.Credentials` | honeypot/honeypot.py:72-74 | credentials are extracted iff the lowercased data contains "password" or "auth"; the user name is the extracted one, and the password is the one found, or "***" exactly when none was found |
| `Honeypot.CommandToLog` | honeypot/honeypot.py:94-97 | a command is logged iff data arrived, and it is exactly its first 100 characters, or all of it when shorter |
| `Honeypot.AuthPhase` | honeypot/honeypot.py:77-98 | once credentials were looked for, the failed attempt is written first; a second record is written exactly when more data arrived, and it is the command of its first 100 characters |
| `Honeypot.SessionRecords` | honeypot/honeypot.py:42-114 | a session writes 2 to 4 records, starting with the connection start and always ending with the connection end |
| `Honeypot.SessionRecordsAreHoneypotRecords` | honeypot/honeypot.py:77-97 | every authentication record of a session has success false, and every command fits the limit |
| `Honeypot.NoSuccessfulLogins` | honeypot/honeypot.py:77-83 | for any sessions, the log's statistics show no successful login and as many failures as attempts |
| `Honeypot.NoneSucceeded` | honeypot/logger.py:126-128 | records without a successful attempt count zero successful logins |
| `HoneypotLog.Stars` | honeypot/logger.py:57 | `'*' * n` has n characters, all '*' |
| `HoneypotLog.AuthMessage` | honeypot/logger.py:57 | the message is "Login attempt: ", the user name and " / ", followed by exactly as many characters as the password has |
| `HoneypotLog.StartRecord` | honeypot/logger.py:73-80 | a connection start of the address, counted neither as an attempt nor as a command |
| `HoneypotLog.EndRecord` | honeypot/logger.py:83-91 | a connection end of the address, counted neither as an attempt nor as a command |
| `HoneypotLog.AuthRecord` | honeypot/logger.py:48-58 | an attempt of the address that counts as successful exactly when `success` is set, with the user name and the password in clear |
| `HoneypotLog.CommandRecord` | honeypot/logger.py:61-70 | a command of the address holding the command, never counted as an attempt |
| `HoneypotLog.AuthMessageMasksPassword` | honeypot/logger.py:57 | the message ends in one star per password character and depends on the password only through its length |
| `HoneypotLog.ParsedLines` | honeypot/logger.py:99-108 | loading never yields more records than lines |
| `HoneypotLog.ParsedLinesAppend` | honeypot/logger.py:99-108 | loading two pieces of a file gives both pieces' records, in file order |
| `HoneypotLog.ParsedLinesSound` | honeypot/logger.py:101-106 | every loaded record is the parse of some non-blank line |
| `HoneypotLog.ParsedLinesIsComprehension` | honeypot/logger.py:99-108 | loading equals filtering the non-blank lines the parser accepts and then parsing each of them |
| `HoneypotLog.LoadLogs` | honeypot/logger.py:94-108 | a missing file gives no records; otherwise the loop keeps, in order, the records of the non-blank lines that parse |
| `HoneypotLog.FailedPlusSuccessful` | honeypot/logger.py:127-128 | each authentication attempt is counted exactly once, as failed (missing success included) or as successful |
| `HoneypotLog.AuthenticationsAndCommandsDisjoint` | honeypot/logger.py:126-129 | authentication attempts and commands together number at most the records |
| `HoneypotLog.GetStatistics` | honeypot/logger.py:111-138 | all zeros without records; total is the number of records of any type; failed + successful = attempts; attempts + commands <= total; 1 <= unique addresses <= total when there are records |
| `HoneypotLog.StatisticsAdd` | honeypot/logger.py:125-137 | every count except the unique addresses adds up over concatenated logs |
| `AnalyzeLogs.MaskPassword` | honeypot/analyze_logs.py:78 | more than 3 characters gives one star each, otherwise exactly "***"; only stars are shown |
| `AnalyzeLogs.FailedFrom` | honeypot/analyze_logs.py:127-130 | an address's count of failed attempts is at most the number of attempts, and zero when none of its attempts failed |
| `AnalyzeLogs.MaskDependsOnlyOnLength` | honeypot/analyze_logs.py:78 | passwords of the same length, or both of at most 3 characters, get the same mask, which is at least 3 stars |
| `AnalyzeLogs.ShownPassword` | honeypot/analyze_logs.py:70-78 | a shown password is only stars, at least three; a missing one shows as the seven stars of "unknown"; a long one as one star per character |
| `AnalyzeLogs.Connections` | honeypot/analyze_logs.py:58 | the connections are exactly the records whose event type is "connection_start" |
| `AnalyzeLogs.ShownCommand` | honeypot/analyze_logs.py:94 | the shown command is exactly the first 50 characters of the command (or of "unknown"), or all of it when shorter |
| `AnalyzeLogs.CommandList` | honeypot/analyze_logs.py:94 | one entry per command record, in order, each exactly that command's first 50 characters, or all of it when shorter |
| `AnalyzeLogs.LoggedCommandShown` | honeypot/analyze_logs.py:94 | the analysis shows the first 50 characters the attacker sent, although the honeypot logged up to 100 |
| `AnalyzeLogs.FailedFromIsFilter` | honeypot/analyze_logs.py:127-130 | an address's count is the number of its failed attempts |
| `AnalyzeLogs.CountFailedByIp` | honeypot/analyze_logs.py:127-130 | an address has an entry iff it has a failed attempt, and the entry is its number of failed attempts |
| `AnalyzeLogs.BruteForceIps` | honeypot/analyze_logs.py:132 | an address is reported iff it has at least 3 failed attempts |
| `AnalyzeLogs.Analyze` | honeypot/analyze_logs.py:32-138 | no analysis iff there are no records; otherwise the report's figures are those of the records, with failed + successful = attempts and the brute-force rule above |

## Left out

- Sockets, accept loops, threads and sleeps are not modelled, in `listen_for_knocks`, `handle`,
  `run_honeypot`, `grab_banner`, `scan_port` and `scan_range`. The values they produce become
  parameters: the received data, the banner, and the timer firing as an event.
- Each knock is handled atomically, as the lock in `record_knock` intends. The unlocked race
  between the auto-close thread and `record_knock` is not modelled.
- The iptables commands are not modelled. `open_protected_port` and `close_protected_port` are
  represented by the boolean each returns. `initialize_firewall` and `run_iptables_command` are
  not part of this model.
- `datetime.now()` and float seconds become integer ticks. The time a grant is opened is the
  `now` of the knock that completed the sequence.
- `port_timeout` is not a field. The timer's sleep is replaced by the explicit `TimerFires`
  event, which may come at any time.
- port_knocking/knock_client.py, `expand_cidr`, argparse, JSON output and printing are not part
  of this model. Neither is mitm/, nor the entry-point files of the port scanner.
- Python's Unicode `lower()`, `isalnum()` and `split()` are not modelled; the model works on
  ASCII letters, digits and whitespace. `int()` is modelled on an optional '-' followed by
  decimal digits. The surrounding whitespace, '+' and '_' that `int()` also accepts are left
  out.
- `json.loads` is a caller-supplied parse function. Blank lines and lines it rejects are
  skipped.
- JSON values of the wrong kind are not modelled. A line that parses to a non-object, such as
  `[]` or `5`, would make `get_statistics` and the analysis raise `AttributeError`. A JSON `null`
  password or command would make the masking or the truncation raise `TypeError`. The
  caller-supplied parse function yields only records whose fields are strings, booleans or
  missing, so neither error path exists in the model.
- Records keep only the keys the statistics and the analysis read. The timestamp, source
  port, message, output and duration are not kept. `success` is an optional boolean: a
  non-boolean JSON value is not modelled.
- Decoding received bytes with `errors='ignore'` is not modelled. The model takes the decoded
  text, so non-empty bytes that decode to nothing are not represented.
- `AnalyzeLogs.Analyze`: `Counter`, `most_common` and their ordering are not modelled. The
  report keeps the shown password list and the command list, and leaves the counting of
  repeats to the reader.
- `AnalyzeLogs.Analyze`: the first and last timestamps and the count per event type are not
  modelled.
- `AnalyzeLogs.BruteForceIps`: the brute-force addresses form a set, not a list in dictionary
  insertion order.
- `Honeypot.SessionRecords`: the records written when an exception cuts a session short are
  represented only by `data` being `None`. An exception after the authentication record but
  before the command is represented by `more` being `None`.
