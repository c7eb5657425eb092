/** The SSH honeypot's decisions about what an attacker sent: when credentials are looked for,
    which user name and password are picked out of the data, and which records a session
    leaves in the log. The socket exchange itself is represented by what was received. */
module Honeypot {
  import opened Wrappers
  import opened Seqs
  import opened Text
  import opened HoneypotLog

  /** FAKE_USERS, in the order they are tried. */
  const FakeUsers: seq<string> := ["admin", "root", "user", "test", "guest"]

  /** The common passwords of extract_password, in the order they are tried. */
  const CommonPasswords: seq<string> := ["password", "123456", "admin", "root", "test"]

  /** A received command is logged truncated to this many characters. */
  const CommandLimit := 100

  /** The first candidate, in list order, that occurs in `text`. */
  function FirstContained(candidates: seq<string>, text: string): (r: Option<string>)
    ensures r.None? <==> forall i :: 0 <= i < |candidates| ==> !Contains(text, candidates[i])
    ensures r.Some? ==> exists i :: 0 <= i < |candidates| && candidates[i] == r.value
                                  && Contains(text, r.value)
                                  && forall j :: 0 <= j < i ==> !Contains(text, candidates[j])
    decreases |candidates|
  {
    if candidates == [] then None
    else if Contains(text, candidates[0]) then Some(candidates[0])
    else
      var r := FirstContained(candidates[1..], text);
      assert forall i :: 1 <= i < |candidates| ==> candidates[i] == candidates[1..][i - 1];
      r
  }

  /** A word that looks like a user name: longer than two characters, letters and digits only. */
  predicate QualifyingWord(w: string) { |w| > 2 && IsAlnumWord(w) }

  /** The first qualifying word, in order. */
  function FirstQualifying(words: seq<string>): (r: Option<string>)
    ensures r.None? <==> forall i :: 0 <= i < |words| ==> !QualifyingWord(words[i])
    ensures r.Some? ==> exists i :: 0 <= i < |words| && words[i] == r.value && QualifyingWord(r.value)
                                  && forall j :: 0 <= j < i ==> !QualifyingWord(words[j])
    decreases |words|
  {
    if words == [] then None
    else if QualifyingWord(words[0]) then Some(words[0])
    else
      var r := FirstQualifying(words[1..]);
      assert forall i :: 1 <= i < |words| ==> words[i] == words[1..][i - 1];
      r
  }

  /** extract_username: a fake user named anywhere in the data, in any case; else the first
      whitespace-separated word that qualifies; else "unknown". The fake users are written in
      lower case, so `user.lower()` is the user itself. */
  function ExtractUsername(data: string): (u: string)
    ensures |u| > 2
  {
    match FirstContained(FakeUsers, Lower(data))
    case Some(user) => user
    case None =>
      match FirstQualifying(Words(data))
      case Some(word) => word
      case None => "unknown"
  }

  /** extract_password: the first common password found in the lowercased data. */
  function ExtractPassword(data: string): (p: Option<string>)
    ensures p.Some? ==> p.value in CommonPasswords && Contains(Lower(data), p.value)
  {
    FirstContained(CommonPasswords, Lower(data))
  }

  /** When the data names a fake user, in any case, the user name is the first one it names, in
      the order of FakeUsers. */
  lemma UsernameFromFakeUsers(data: string)
    requires exists i :: 0 <= i < |FakeUsers| && Contains(Lower(data), FakeUsers[i])
    ensures exists k :: 0 <= k < |FakeUsers| && ExtractUsername(data) == FakeUsers[k]
                        && Contains(Lower(data), FakeUsers[k])
                        && forall j :: 0 <= j < k ==> !Contains(Lower(data), FakeUsers[j])
  {
    var r := FirstContained(FakeUsers, Lower(data));
    assert r.Some?;
    assert ExtractUsername(data) == r.value;
  }

  /** Otherwise the user name is the first qualifying word of the data, which is never a fake
      user: a fake user among the words would have been found in the lowercased data. */
  lemma UsernameFromWords(data: string)
    requires forall i :: 0 <= i < |FakeUsers| ==> !Contains(Lower(data), FakeUsers[i])
    requires exists i :: 0 <= i < |Words(data)| && QualifyingWord(Words(data)[i])
    ensures var u := ExtractUsername(data);
      && (exists k :: 0 <= k < |Words(data)| && u == Words(data)[k] && QualifyingWord(u)
                      && forall j :: 0 <= j < k ==> !QualifyingWord(Words(data)[j]))
      && Contains(data, u) && u !in FakeUsers
  {
    var ws := Words(data);
    var r := FirstQualifying(ws);
    assert FirstContained(FakeUsers, Lower(data)).None?;
    assert ExtractUsername(data) == r.value;
    var u := r.value;
    var i :| 0 <= i < |ws| && ws[i] == u && QualifyingWord(u)
             && forall j :: 0 <= j < i ==> !QualifyingWord(ws[j]);
    assert Contains(data, ws[i]);
    if u in FakeUsers {
      FakeUsersAreLowerCase();
      ContainsLower(data, u);
      assert false;
    }
  }

  /** The fake users are written in lower case, so lowercasing leaves them unchanged. */
  lemma FakeUsersAreLowerCase()
    ensures forall k :: 0 <= k < |FakeUsers| ==> Lower(FakeUsers[k]) == FakeUsers[k]
  {
    forall k, i | 0 <= k < |FakeUsers| && 0 <= i < |FakeUsers[k]|
      ensures LowerChar(FakeUsers[k][i]) == FakeUsers[k][i]
    {
      assert 'a' <= FakeUsers[k][i] <= 'z';
    }
  }

  /** The user name is, in this order of preference: the first fake user the data names, the
      first qualifying word of the data, or "unknown". */
  lemma UsernameChoice(data: string)
    ensures var u := ExtractUsername(data);
      if exists i :: 0 <= i < |FakeUsers| && Contains(Lower(data), FakeUsers[i]) then
        exists k :: 0 <= k < |FakeUsers| && u == FakeUsers[k] && Contains(Lower(data), u)
                    && forall j :: 0 <= j < k ==> !Contains(Lower(data), FakeUsers[j])
      else if exists i :: 0 <= i < |Words(data)| && QualifyingWord(Words(data)[i]) then
        (exists k :: 0 <= k < |Words(data)| && u == Words(data)[k] && QualifyingWord(u)
                     && forall j :: 0 <= j < k ==> !QualifyingWord(Words(data)[j]))
        && Contains(data, u) && u !in FakeUsers
      else u == "unknown"
  {
    if exists i :: 0 <= i < |FakeUsers| && Contains(Lower(data), FakeUsers[i]) {
      UsernameFromFakeUsers(data);
    } else if exists i :: 0 <= i < |Words(data)| && QualifyingWord(Words(data)[i]) {
      UsernameFromWords(data);
    }
  }

  /** "admin" written in any mix of cases anywhere in the data yields the user name "admin",
      whatever else the data holds: it is the first fake user tried. */
  lemma AdminInAnyCase(data: string, written: string)
    requires Lower(written) == "admin" && Contains(data, written)
    ensures ExtractUsername(data) == "admin"
  {
    ContainsLower(data, written);
  }

  /** "password" written in any mix of cases anywhere in the data yields the password
      "password": it is the first common password tried. */
  lemma PasswordInAnyCase(data: string, written: string)
    requires Lower(written) == "password" && Contains(data, written)
    ensures ExtractPassword(data) == Some("password")
  {
    ContainsLower(data, written);
  }

  /** The check in handle that decides whether credentials are looked for at all. */
  predicate AuthTriggered(data: string) {
    Contains(Lower(data), "password") || Contains(Lower(data), "auth")
  }

  /** Data naming "password", in any case, triggers the credential search. The other common
      passwords do not trigger it on their own. */
  lemma PasswordDataTriggers(data: string, written: string)
    requires Lower(written) == "password" && Contains(data, written)
    ensures AuthTriggered(data)
  {
    ContainsLower(data, written);
  }

  /** The user name and password logged for the first data of a session: nothing unless the
      data triggers the search, and "***" when no password was found. */
  function Credentials(data: string): (c: Option<(string, string)>)
    ensures c.Some? <==> AuthTriggered(data)
    ensures c.Some? ==> c.value.0 == ExtractUsername(data)
    ensures c.Some? ==> (c.value.1 == "***" <==> ExtractPassword(data).None?)
    ensures c.Some? ==> c.value.1 == "***" || c.value.1 in CommonPasswords
    ensures c.Some? ==> c.value.1 == ExtractPassword(data).GetOr("***")
  {
    if AuthTriggered(data) then
      Some((ExtractUsername(data), ExtractPassword(data).GetOr("***")))
    else None
  }

  /** `more_data.decode(...)[:100]` when anything arrived: the first 100 characters, or all of
      them when fewer arrived. */
  function CommandToLog(more: string): (c: Option<string>)
    ensures c.None? <==> more == ""
    ensures c.Some? ==> c.value <= more
    ensures c.Some? ==> |c.value| == if |more| <= CommandLimit then |more| else CommandLimit
  {
    if more == "" then None else Some(Take(more, CommandLimit))
  }

  /** What an attacker sent during one session: the first data (`None` when nothing arrived
      before the timeout or the exchange failed) and the data after the auth failure reply. */
  datatype Session = Session(ip: string, data: Option<string>, more: Option<string>)

  /** The records written once credentials were looked for: the failed authentication attempt,
      then the command when one arrived. */
  function AuthPhase(ip: string, user: string, password: string, more: Option<string>): (rs: seq<Record>)
    ensures 1 <= |rs| <= 2 && rs[0] == AuthRecord(ip, user, password, false)
    ensures |rs| == 2 <==> more.Some? && more.value != ""
    ensures |rs| == 2 ==> rs[1] == CommandRecord(ip, Take(more.value, CommandLimit))
  {
    [AuthRecord(ip, user, password, false)]
    + (if more.Some? then
         match CommandToLog(more.value)
         case Some(cmd) => [CommandRecord(ip, cmd)]
         case None => []
       else [])
  }

  /** The records handle writes for one session: the start, then the authentication attempt and
      any command when credentials were looked for, then the end, which is always written. */
  function SessionRecords(s: Session): (rs: seq<Record>)
    ensures 2 <= |rs| <= 4
    ensures rs[0] == StartRecord(s.ip) && rs[|rs| - 1] == EndRecord(s.ip)
  {
    var middle :=
      if s.data.Some? && s.data.value != "" then
        match Credentials(s.data.value)
        case None => []
        case Some((user, password)) => AuthPhase(s.ip, user, password, s.more)
      else [];
    [StartRecord(s.ip)] + middle + [EndRecord(s.ip)]
  }

  /** Every authentication record is a failure, and every command is within the limit. */
  predicate HoneypotRecords(rs: seq<Record>) {
    forall i :: 0 <= i < |rs| ==>
      (rs[i].eventType == Some(AuthenticationAttempt) ==> rs[i].success == Some(false))
      && (rs[i].eventType == Some(CommandExecuted) ==> rs[i].command.Some? && |rs[i].command.value| <= CommandLimit)
  }

  lemma HoneypotRecordsAppend(a: seq<Record>, b: seq<Record>)
    requires HoneypotRecords(a) && HoneypotRecords(b)
    ensures HoneypotRecords(a + b)
  {
    forall i | |a| <= i < |a + b| ensures (a + b)[i] == b[i - |a|] {}
  }

  lemma AuthPhaseIsHoneypotRecords(ip: string, user: string, password: string, more: Option<string>)
    ensures HoneypotRecords(AuthPhase(ip, user, password, more))
  {
    var rs := AuthPhase(ip, user, password, more);
    if |rs| == 2 {
      assert rs[1] == CommandRecord(ip, CommandToLog(more.value).value);
    }
  }

  lemma SessionRecordsAreHoneypotRecords(s: Session)
    ensures HoneypotRecords(SessionRecords(s))
  {
    var middle :=
      if s.data.Some? && s.data.value != "" then
        match Credentials(s.data.value)
        case None => []
        case Some((user, password)) => AuthPhase(s.ip, user, password, s.more)
      else [];
    if s.data.Some? && s.data.value != "" && Credentials(s.data.value).Some? {
      var (user, password) := Credentials(s.data.value).value;
      AuthPhaseIsHoneypotRecords(s.ip, user, password, s.more);
    }
    HoneypotRecordsAppend([StartRecord(s.ip)], middle);
    HoneypotRecordsAppend([StartRecord(s.ip)] + middle, [EndRecord(s.ip)]);
  }

  /** All sessions' records, in order. */
  function AllRecords(sessions: seq<Session>): (rs: seq<Record>)
    decreases |sessions|
  {
    if sessions == [] then [] else AllRecords(sessions[..|sessions| - 1]) + SessionRecords(sessions[|sessions| - 1])
  }

  /** However the sessions went, the log never holds a successful login or an over-long command,
      so its statistics always report every authentication attempt as failed. */
  lemma {:induction false} NoSuccessfulLogins(sessions: seq<Session>)
    ensures HoneypotRecords(AllRecords(sessions))
    ensures var st := GetStatistics(AllRecords(sessions));
      st.successfulLogins == 0 && st.failedLogins == st.authenticationAttempts
    decreases |sessions|
  {
    var rs := AllRecords(sessions);
    if sessions != [] {
      var init := sessions[..|sessions| - 1];
      var last := SessionRecords(sessions[|sessions| - 1]);
      NoSuccessfulLogins(init);
      SessionRecordsAreHoneypotRecords(sessions[|sessions| - 1]);
      assert rs == AllRecords(init) + last;
      assert HoneypotRecords(rs) by {
        forall i | 0 <= i < |rs| ensures rs[i] in AllRecords(init) || rs[i] in last {
          if i >= |AllRecords(init)| {
            assert rs[i] == last[i - |AllRecords(init)|];
          }
        }
      }
    }
    NoneSucceeded(rs);
  }

  /** In records where every authentication attempt failed, no successful login is counted. */
  lemma NoneSucceeded(rs: seq<Record>)
    requires HoneypotRecords(rs)
    ensures GetStatistics(rs).successfulLogins == 0
  {
    if rs != [] {
      var auths := AuthenticationAttempts(rs);
      forall k | 0 <= k < |auths| ensures !Succeeded(auths[k]) {
        assert auths[k] in rs;
      }
      FilterNoneKept(auths, Succeeded);
    }
  }
}
