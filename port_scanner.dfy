/** The pure helpers of the port scanner: naming the service behind an open port from its
    number and banner, and reading the `--ports` argument into a validated range. */
module PortScanner {
  import opened Wrappers
  import opened Text

  /** The table of well-known ports consulted when the banner says nothing useful. */
  const CommonPorts: map<int, string> := map[
    22 := "SSH",
    23 := "Telnet",
    25 := "SMTP",
    53 := "DNS",
    80 := "HTTP",
    110 := "POP3",
    143 := "IMAP",
    443 := "HTTPS",
    3306 := "MySQL",
    5432 := "PostgreSQL",
    6379 := "Redis",
    8080 := "HTTP-Proxy",
    8443 := "HTTPS-Alt",
    5000 := "Flask/Development",
    5001 := "Flask/Development"
  ]

  /** The five names a banner alone can produce. */
  const BannerNames: set<string> := {"SSH", "HTTP", "MySQL", "Redis", "PostgreSQL"}

  /** The if-chain over the lowercased banner; `None` when no keyword occurs. */
  function BannerService(banner: string): (r: Option<string>)
    ensures r.Some? ==> r.value in BannerNames
  {
    var b := Lower(banner);
    if Contains(b, "ssh") then Some("SSH")
    else if Contains(b, "http") || Contains(b, "apache") || Contains(b, "nginx") then Some("HTTP")
    else if Contains(b, "mysql") then Some("MySQL")
    else if Contains(b, "redis") then Some("Redis")
    else if Contains(b, "postgres") then Some("PostgreSQL")
    else None
  }

  /** identify_service: a non-empty banner is consulted first; otherwise, or when it names no
      known service, the port table decides, with "Unknown" for ports outside it. */
  function IdentifyService(port: int, banner: Option<string>): (r: string)
    ensures r in BannerNames || r == "Unknown" || r in CommonPorts.Values
  {
    var fromBanner := if banner.Some? && banner.value != "" then BannerService(banner.value) else None;
    if fromBanner.Some? then fromBanner.value
    else if port in CommonPorts then CommonPorts[port]
    else "Unknown"
  }

  /** One line of the banner rule table: any of the keywords yields the name. */
  datatype Rule = Rule(keywords: seq<string>, name: string)

  /** The banner rules as a table, in priority order. */
  const Rules: seq<Rule> := [
    Rule(["ssh"], "SSH"),
    Rule(["http", "apache", "nginx"], "HTTP"),
    Rule(["mysql"], "MySQL"),
    Rule(["redis"], "Redis"),
    Rule(["postgres"], "PostgreSQL")
  ]

  /** Some keyword of the list occurs in `text`. */
  predicate AnyKeyword(text: string, keywords: seq<string>)
    decreases |keywords|
  {
    keywords != [] && (Contains(text, keywords[0]) || AnyKeyword(text, keywords[1..]))
  }

  /** The first rule, in table order, one of whose keywords occurs in `text`. */
  function FirstMatch(rules: seq<Rule>, text: string): (r: Option<string>)
    ensures r.Some? <==> exists i :: 0 <= i < |rules| && AnyKeyword(text, rules[i].keywords)
    ensures r.Some? ==> exists i :: 0 <= i < |rules| && rules[i].name == r.value
                                  && AnyKeyword(text, rules[i].keywords)
                                  && forall j :: 0 <= j < i ==> !AnyKeyword(text, rules[j].keywords)
    decreases |rules|
  {
    if rules == [] then None
    else if AnyKeyword(text, rules[0].keywords) then Some(rules[0].name)
    else
      var r := FirstMatch(rules[1..], text);
      assert forall i :: 1 <= i < |rules| ==> rules[i] == rules[1..][i - 1];
      r
  }

  /** The if-chain of identify_service is the first-match rule over the table: the earliest rule
      whose keyword occurs in the lowercased banner wins. */
  lemma BannerServiceIsFirstMatch(banner: string)
    ensures BannerService(banner) == FirstMatch(Rules, Lower(banner))
  {
    var b := Lower(banner);
    assert ["http", "apache", "nginx"][1..] == ["apache", "nginx"];
    assert ["apache", "nginx"][1..] == ["nginx"];
    assert AnyKeyword(b, ["http", "apache", "nginx"])
        == (Contains(b, "http") || Contains(b, "apache") || Contains(b, "nginx"));
    assert Rules[1..][1..][1..][1..][1..] == [];
  }

  /** "ssh" written in any mix of cases anywhere in the banner yields "SSH", whatever the port
      and whatever other keywords the banner holds. */
  lemma SshInAnyCase(port: int, banner: string, written: string)
    requires Lower(written) == "ssh" && Contains(banner, written)
    ensures IdentifyService(port, Some(banner)) == "SSH"
  {
    ContainsLower(banner, written);
  }

  /** Without a banner, with an empty one, or with one that holds no keyword, the port table
      decides. */
  lemma TableWhenBannerSaysNothing(port: int, banner: Option<string>)
    requires banner.None? || banner.value == ""
          || forall i :: 0 <= i < |Rules| ==> !AnyKeyword(Lower(banner.value), Rules[i].keywords)
    ensures IdentifyService(port, banner) == if port in CommonPorts then CommonPorts[port] else "Unknown"
  {
    if banner.Some? {
      BannerServiceIsFirstMatch(banner.value);
    }
  }

  /** A banner service, when there is one, takes precedence over the table. */
  lemma BannerBeatsTable(port: int, banner: string, i: nat)
    requires banner != "" && i < |Rules| && AnyKeyword(Lower(banner), Rules[i].keywords)
    ensures IdentifyService(port, Some(banner)) in BannerNames
    ensures IdentifyService(port, Some(banner)) == FirstMatch(Rules, Lower(banner)).value
  {
    BannerServiceIsFirstMatch(banner);
  }

  /** parse_port_range: "a-b" is split at the first '-' into two integers; a string without '-'
      is a single port, read as the range (p, p). `None` where `int()` raises ValueError. */
  function ParsePortRange(s: string): (r: Option<(int, int)>)
    ensures r.Some? && '-' !in s ==> r.value.0 == r.value.1
  {
    match IndexOf(s, '-')
    case None =>
      (match ParseInt(s)
       case Some(p) => Some((p, p))
       case None => None)
    case Some(i) =>
      (match (ParseInt(s[..i]), ParseInt(s[i + 1..]))
       case (Some(a), Some(b)) => Some((a, b))
       case _ => None)
  }

  const MaxPort := 65535

  /** The `--ports` handling in main: parse, then accept only 1 <= start <= end <= 65535;
      anything else is the "Invalid port range" exit. */
  function ValidatePortRange(s: string): (r: Option<(int, int)>)
    ensures r.Some? <==> ParsePortRange(s).Some? && 1 <= ParsePortRange(s).value.0 <= ParsePortRange(s).value.1 <= MaxPort
    ensures r.Some? ==> r == ParsePortRange(s)
  {
    match ParsePortRange(s)
    case Some((start, end)) =>
      if start < 1 || end > MaxPort || start > end then None else Some((start, end))
    case None => None
  }

  lemma NoMinusInShowNat(n: nat)
    ensures '-' !in ShowNat(n)
  {
    var s := ShowNat(n);
    assert forall i :: 0 <= i < |s| ==> IsDigit(s[i]);
  }

  /** A number written without '-' parses to the one-port range (p, p). */
  lemma SinglePortRoundTrip(p: nat)
    ensures ParsePortRange(ShowNat(p)) == Some((p, p))
  {
    NoMinusInShowNat(p);
    ParseShowInt(p);
  }

  /** Only the first '-' splits: `str(a) + "-" + str(b)` parses back to (a, b) for a
      non-negative start and any end, a negative one included. */
  lemma RangeRoundTrip(a: nat, b: int)
    ensures ParsePortRange(ShowNat(a) + "-" + ShowInt(b)) == Some((a, b))
  {
    var s := ShowNat(a) + "-" + ShowInt(b);
    NoMinusInShowNat(a);
    IndexOfAfter(ShowNat(a), '-', ShowInt(b));
    assert s[..|ShowNat(a)|] == ShowNat(a);
    assert s[|ShowNat(a)| + 1..] == ShowInt(b);
    ParseShowInt(a);
    ParseShowInt(b);
  }

  /** A written range within 1..65535 in increasing order is accepted as written. */
  lemma ValidRangeAccepted(a: nat, b: nat)
    requires 1 <= a <= b <= MaxPort
    ensures ValidatePortRange(ShowNat(a) + "-" + ShowNat(b)) == Some((a, b))
  {
    RangeRoundTrip(a, b);
  }

  /** A leading '-' leaves an empty start, which `int()` rejects: "-p" is never a range. */
  lemma LeadingMinusRejected(p: nat)
    ensures ParsePortRange("-" + ShowNat(p)) == None
  {
    var s := "-" + ShowNat(p);
    assert IndexOf(s, '-') == Some(0);
    assert s[..0] == "";
  }

  /** A reversed or out-of-bounds range is refused even though it parses. */
  lemma BadRangeRefused(a: nat, b: int)
    requires a < 1 || b > MaxPort || a > b
    ensures ValidatePortRange(ShowNat(a) + "-" + ShowInt(b)) == None
  {
    RangeRoundTrip(a, b);
  }
}
