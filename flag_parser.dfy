/** The allow-list configuration parser (pkg/parser/flag.go): the literal
    IP flag, the host flag, the nameserver lines of resolv.conf(5), and the
    record that joins them. */
module FlagParser {
  import opened Common
  import opened Text
  import opened NetIP

  const LocalLoopback: string := "127.0.0.1"
  const LinkLocal: string := "169.254.169.254"
  const AzureMeta: string := "168.63.129.16"

  /** The four-byte forms of the three infrastructure addresses, in the
      order they are appended. */
  const InfraIPs: seq<IP> := [[127, 0, 0, 1], [169, 254, 169, 254], [168, 63, 129, 16]]

  /** `net.ParseIP(s).To4()`, where the To4 of nil is nil. */
  function ParseTo4(s: string, v6: string -> Option<IP>): IP
  {
    match ParseIP(s, v6)
    case Some(ip) => To4(ip)
    case None => []
  }

  /** The three constants parse to the addresses `InfraIPs` lists. */
  lemma InfraLiterals(v6: string -> Option<IP>)
    ensures [ParseTo4(LocalLoopback, v6), ParseTo4(LinkLocal, v6), ParseTo4(AzureMeta, v6)] == InfraIPs
  {
    LoopbackLiteral(v6);
    LinkLocalLiteral(v6);
    AzureMetaLiteral(v6);
  }

  lemma LoopbackLiteral(v6: string -> Option<IP>)
    ensures ParseTo4(LocalLoopback, v6) == [127, 0, 0, 1]
  {
    LoopbackSpelled();
    ParseTo4Quad(127, 0, 0, 1, v6);
  }

  lemma LinkLocalLiteral(v6: string -> Option<IP>)
    ensures ParseTo4(LinkLocal, v6) == [169, 254, 169, 254]
  {
    LinkLocalSpelled();
    ParseTo4Quad(169, 254, 169, 254, v6);
  }

  lemma AzureMetaLiteral(v6: string -> Option<IP>)
    ensures ParseTo4(AzureMeta, v6) == [168, 63, 129, 16]
  {
    AzureMetaSpelled();
    ParseTo4Quad(168, 63, 129, 16, v6);
  }

  /** A dotted quad parses, and `To4` gives back its four bytes. */
  lemma ParseTo4Quad(a: Byte, b: Byte, c: Byte, d: Byte, v6: string -> Option<IP>)
    ensures ParseTo4(DottedQuad(a, b, c, d), v6) == [a, b, c, d]
  {
    ParseDottedQuad(a, b, c, d, v6);
    To4OfMapped(a, b, c, d);
  }

  lemma LoopbackSpelled()
    ensures LocalLoopback == DottedQuad(127, 0, 0, 1)
  {
    DecimalSpelling(1, 2, 7, "127");
    assert Decimal(0) == "0" && Decimal(1) == "1";
    QuadSpelling(LocalLoopback, 127, 0, 0, 1, "127", "0", "0", "1");
  }

  lemma LinkLocalSpelled()
    ensures LinkLocal == DottedQuad(169, 254, 169, 254)
  {
    DecimalSpelling(1, 6, 9, "169");
    DecimalSpelling(2, 5, 4, "254");
    QuadSpelling(LinkLocal, 169, 254, 169, 254, "169", "254", "169", "254");
  }

  lemma AzureMetaSpelled()
    ensures AzureMeta == DottedQuad(168, 63, 129, 16)
  {
    DecimalSpelling(1, 6, 8, "168");
    DecimalSpelling(1, 2, 9, "129");
    DecimalTwoDigits(6, 3, "63");
    DecimalTwoDigits(1, 6, "16");
    QuadSpelling(AzureMeta, 168, 63, 129, 16, "168", "63", "129", "16");
  }

  /** A string made of four spellings with a dot between each pair is
      their dotted quad. */
  lemma QuadSpelling(s: string, a: Byte, b: Byte, c: Byte, d: Byte, sa: string, sb: string, sc: string, sd: string)
    requires Decimal(a) == sa && Decimal(b) == sb && Decimal(c) == sc && Decimal(d) == sd
    requires s == sa + ['.'] + sb + ['.'] + sc + ['.'] + sd
    ensures s == DottedQuad(a, b, c, d)
  {
    JoinFour([sa, sb, sc, sd], '.');
  }

  /** The digit of a value below ten. */
  function DigitChar(u: nat): char
    requires u < 10
  {
    ('0' as int + u) as char
  }

  /** Appending digit `u` to the spelling of `n > 0` spells `10 * n + u`. */
  lemma DecimalNext(n: nat, u: nat)
    requires 0 < n && u < 10
    ensures Decimal(10 * n + u) == Decimal(n) + [DigitChar(u)]
  {
    assert (10 * n + u) / 10 == n && (10 * n + u) % 10 == u;
  }

  /** The spelling of the two-digit number with digits `t`, `u`. */
  lemma DecimalTwoDigits(t: nat, u: nat, s: string)
    requires 0 < t < 10 && u < 10
    requires s == [DigitChar(t), DigitChar(u)]
    ensures Decimal(10 * t + u) == s
  {
    DecimalNext(t, u);
  }

  /** The spelling of the three-digit number with digits `h`, `t`, `u`. */
  lemma DecimalSpelling(h: nat, t: nat, u: nat, s: string)
    requires 0 < h < 10 && t < 10 && u < 10
    requires s == [DigitChar(h), DigitChar(t), DigitChar(u)]
    ensures Decimal(100 * h + 10 * t + u) == s
  {
    DecimalNext(h, t);
    DecimalNext(10 * h + t, u);
    assert 10 * (10 * h + t) + u == 100 * h + 10 * t + u;
  }

  // ------------------------------------------------------ parseAllowedIPAddr

  /** The `To4` forms of the pieces `net.ParseIP` accepts, in input order. */
  function AcceptedIPs(pieces: seq<string>, v6: string -> Option<IP>): seq<IP>
  {
    if pieces == [] then []
    else
      var last := pieces[|pieces| - 1];
      AcceptedIPs(pieces[..|pieces| - 1], v6)
      + (match ParseIP(last, v6) case Some(ip) => [To4(ip)] case None => [])
  }

  /** How many pieces `net.ParseIP` accepts. */
  function NumAccepted(pieces: seq<string>, v6: string -> Option<IP>): nat
  {
    if pieces == [] then 0
    else (if ParseIP(pieces[0], v6).Some? then 1 else 0) + NumAccepted(pieces[1..], v6)
  }

  /** What `parseAllowedIPAddr(ips)` returns. */
  function AllowedIPAddr(ips: string, v6: string -> Option<IP>): seq<IP>
  {
    AcceptedIPs(Split(ips, ','), v6) + InfraIPs
  }

  /** `parseAllowedIPAddr`: split on commas, keep the pieces that parse
      (untrimmed), convert them with `To4`, then append the three
      infrastructure addresses. */
  method ParseAllowedIPAddr(ips: string, v6: string -> Option<IP>) returns (iplist: seq<IP>)
    ensures iplist == AllowedIPAddr(ips, v6)
  {
    var pieces := Split(ips, ',');
    iplist := [];
    for i := 0 to |pieces|
      invariant iplist == AcceptedIPs(pieces[..i], v6)
    {
      assert pieces[..i + 1][..i] == pieces[..i];
      var parsed := ParseIP(pieces[i], v6);
      if parsed.None? {
        continue;
      }
      iplist := iplist + [To4(parsed.value)];
    }
    assert pieces[..|pieces|] == pieces;
    InfraLiterals(v6);
    iplist := iplist + [ParseTo4(LocalLoopback, v6), ParseTo4(LinkLocal, v6), ParseTo4(AzureMeta, v6)];
  }

  /** Filtering distributes over concatenation. */
  lemma {:induction false} AcceptedIPsAppend(a: seq<string>, b: seq<string>, v6: string -> Option<IP>)
    ensures AcceptedIPs(a + b, v6) == AcceptedIPs(a, v6) + AcceptedIPs(b, v6)
  {
    if b != [] {
      var b' := b[..|b| - 1];
      AcceptedIPsAppend(a, b', v6);
      assert (a + b)[..|a + b| - 1] == a + b';
    } else {
      assert a + b == a;
    }
  }

  /** One entry per accepted piece, three more for the infrastructure. */
  lemma {:induction false} AllowedIPAddrLength(pieces: seq<string>, v6: string -> Option<IP>)
    ensures |AcceptedIPs(pieces, v6)| == NumAccepted(pieces, v6)
  {
    if pieces != [] {
      AllowedIPAddrLength(pieces[1..], v6);
      AcceptedIPsAppend([pieces[0]], pieces[1..], v6);
      assert [pieces[0]] + pieces[1..] == pieces;
      assert AcceptedIPs([pieces[0]], v6) == AcceptedIPs([], v6)
        + (match ParseIP(pieces[0], v6) case Some(ip) => [To4(ip)] case None => []);
    }
  }

  /** The result ends with the infrastructure addresses and has exactly
      one entry per accepted piece before them; each entry is four bytes
      long or nil. */
  lemma AllowedIPAddrShape(ips: string, v6: string -> Option<IP>)
    ensures var r := AllowedIPAddr(ips, v6);
            && |r| == NumAccepted(Split(ips, ','), v6) + 3
            && r[|r| - 3..] == InfraIPs
            && forall k :: 0 <= k < |r| ==> |r[k]| == 4 || r[k] == []
  {
    var pieces := Split(ips, ',');
    AllowedIPAddrLength(pieces, v6);
    AcceptedIPsWidth(pieces, v6);
  }

  lemma {:induction false} AcceptedIPsWidth(pieces: seq<string>, v6: string -> Option<IP>)
    ensures forall k :: 0 <= k < |AcceptedIPs(pieces, v6)| ==>
              |AcceptedIPs(pieces, v6)[k]| == 4 || AcceptedIPs(pieces, v6)[k] == []
  {
    if pieces != [] {
      AcceptedIPsWidth(pieces[..|pieces| - 1], v6);
    }
  }

  /** Piece `p` parses to an address whose `To4` is `x`. */
  predicate ParsesTo(p: string, v6: string -> Option<IP>, x: IP)
  {
    ParseIP(p, v6).Some? && To4(ParseIP(p, v6).value) == x
  }

  /** A piece is kept exactly when it parses: an entry is in the result iff
      some piece parses to an address whose `To4` it is. */
  lemma AcceptedIPsMembers(pieces: seq<string>, v6: string -> Option<IP>, x: IP)
    ensures x in AcceptedIPs(pieces, v6) <==> exists i :: 0 <= i < |pieces| && ParsesTo(pieces[i], v6, x)
  {
    if x in AcceptedIPs(pieces, v6) {
      var i := AcceptedIPsSource(pieces, v6, x);
    }
    if exists i :: 0 <= i < |pieces| && ParsesTo(pieces[i], v6, x) {
      var i :| 0 <= i < |pieces| && ParsesTo(pieces[i], v6, x);
      AcceptedIPsKeeps(pieces, v6, i, x);
    }
  }

  /** Every entry of the result comes from a piece that parses to it. */
  lemma {:induction false} AcceptedIPsSource(pieces: seq<string>, v6: string -> Option<IP>, x: IP)
      returns (i: nat)
    requires x in AcceptedIPs(pieces, v6)
    ensures i < |pieces| && ParsesTo(pieces[i], v6, x)
  {
    assert pieces != [];
    var n := |pieces| - 1;
    AcceptedIPsSnoc(pieces, v6, x);
    if ParsesTo(pieces[n], v6, x) {
      i := n;
    } else {
      i := AcceptedIPsSource(pieces[..n], v6, x);
      assert pieces[..n][i] == pieces[i];
    }
  }

  /** Every piece that parses contributes its `To4` form. */
  lemma {:induction false} AcceptedIPsKeeps(pieces: seq<string>, v6: string -> Option<IP>, i: nat, x: IP)
    requires i < |pieces| && ParsesTo(pieces[i], v6, x)
    ensures x in AcceptedIPs(pieces, v6)
  {
    var n := |pieces| - 1;
    AcceptedIPsSnoc(pieces, v6, x);
    if i < n {
      assert pieces[..n][i] == pieces[i];
      AcceptedIPsKeeps(pieces[..n], v6, i, x);
    }
  }

  /** The last piece adds `x` exactly when it parses to it. */
  lemma AcceptedIPsSnoc(pieces: seq<string>, v6: string -> Option<IP>, x: IP)
    requires pieces != []
    ensures x in AcceptedIPs(pieces, v6) <==>
              x in AcceptedIPs(pieces[..|pieces| - 1], v6) || ParsesTo(pieces[|pieces| - 1], v6, x)
  {
  }

  /** Pieces are not trimmed, so a piece with a blank around it is dropped. */
  lemma SpacedPieceDropped(pieces: seq<string>, p: string, v6: string -> Option<IP>)
    requires IPv6Parser(v6)
    requires p != [] && (IsSpace(p[0]) || IsSpace(p[|p| - 1]))
    ensures AcceptedIPs(pieces + [p], v6) == AcceptedIPs(pieces, v6)
  {
    SpacedLiteralRejected(p, v6);
    assert (pieces + [p])[..|pieces|] == pieces;
  }

  // ------------------------------------------------------- parseAllowedHosts

  /** Each piece trimmed, in order. */
  function TrimAll(pieces: seq<string>): (r: seq<string>)
    ensures |r| == |pieces|
    ensures forall i :: 0 <= i < |r| ==> r[i] == TrimSpace(pieces[i])
  {
    if pieces == [] then [] else TrimAll(pieces[..|pieces| - 1]) + [TrimSpace(pieces[|pieces| - 1])]
  }

  /** What `parseAllowedHosts(hosts)` returns. */
  function AllowedHosts(hosts: string): seq<string>
  {
    TrimAll(Split(hosts, ','))
  }

  /** `parseAllowedHosts`: every comma-separated piece, trimmed, in order. */
  method ParseAllowedHosts(hosts: string) returns (hl: seq<string>)
    ensures hl == AllowedHosts(hosts)
  {
    var pieces := Split(hosts, ',');
    hl := [];
    for i := 0 to |pieces|
      invariant hl == TrimAll(pieces[..i])
    {
      assert pieces[..i + 1][..i] == pieces[..i];
      hl := hl + [TrimSpace(pieces[i])];
    }
    assert pieces[..|pieces|] == pieces;
  }

  /** Every entry is trimmed and free of commas, and there is one more
      entry than there are commas. */
  lemma AllowedHostsShape(hosts: string)
    ensures |AllowedHosts(hosts)| == Count(',', hosts) + 1
    ensures forall i :: 0 <= i < |AllowedHosts(hosts)| ==> TrimmedHost(AllowedHosts(hosts)[i])
  {
    var pieces := Split(hosts, ',');
    forall i | 0 <= i < |pieces| ensures TrimmedHost(TrimSpace(pieces[i])) {
      TrimmedPiece(pieces[i]);
    }
  }

  /** An empty host flag still yields one, empty, host. */
  lemma EmptyHostsFlag()
    ensures AllowedHosts("") == [""]
  {
  }

  /** No comma inside, no white space at either end. */
  predicate TrimmedHost(h: string)
  {
    ',' !in h && (h == [] || (!IsSpace(h[0]) && !IsSpace(h[|h| - 1])))
  }

  lemma TrimmedPiece(p: string)
    requires ',' !in p
    ensures TrimmedHost(TrimSpace(p))
  {
    var h := TrimSpace(p);
    var j :| 0 <= j <= |p| - |h| && p[j..j + |h|] == h && AllSpace(p[..j]) && AllSpace(p[j + |h|..]);
    forall k | 0 <= k < |h| ensures h[k] != ',' {
      assert h[k] == p[j + k];
    }
  }

  // ------------------------------------------------------------ getDNSServers

  /** What one resolv.conf line contributes. */
  datatype LineClass = Ignored | ServerHost(name: string) | ServerIP(ip: IP)

  /** A line counts when its first field is exactly "nameserver" and it has
      a second field; that field is an address if it parses, a host name
      otherwise. The address is kept in its 16-byte form. */
  function ClassifyLine(line: string, v6: string -> Option<IP>): (r: LineClass)
    ensures r != Ignored <==> |Fields(line)| >= 2 && Fields(line)[0] == "nameserver"
    ensures r.ServerHost? ==> && r.name == Fields(line)[1] && r.name != [] && NoSpace(r.name)
                              && ParseIP(r.name, v6).None?
    ensures r.ServerIP? ==> ParseIP(Fields(line)[1], v6) == Some(r.ip)
  {
    var fields := Fields(line);
    if |fields| >= 2 && fields[0] == "nameserver" then
      match ParseIP(fields[1], v6)
      case None => ServerHost(fields[1])
      case Some(ip) => ServerIP(ip)
    else Ignored
  }

  /** The bufio.Scanner view of /etc/resolv.conf: it could not be opened,
      or these lines were read and the scan ended with or without error. */
  datatype ResolvConf = Unopenable | Scanned(lines: seq<string>, scanFailed: bool)

  function DNSHosts(lines: seq<string>, v6: string -> Option<IP>): seq<string>
  {
    if lines == [] then []
    else
      DNSHosts(lines[..|lines| - 1], v6)
      + (match ClassifyLine(lines[|lines| - 1], v6) case ServerHost(h) => [h] case _ => [])
  }

  function DNSIPs(lines: seq<string>, v6: string -> Option<IP>): seq<IP>
  {
    if lines == [] then []
    else
      DNSIPs(lines[..|lines| - 1], v6)
      + (match ClassifyLine(lines[|lines| - 1], v6) case ServerIP(ip) => [ip] case _ => [])
  }

  /** `getDNSServers`: nameserver host names and addresses, in file order;
      both nil when the file cannot be opened or the scan fails. */
  method GetDNSServers(conf: ResolvConf, v6: string -> Option<IP>) returns (hosts: seq<string>, ips: seq<IP>)
    ensures conf.Unopenable? || conf.scanFailed ==> hosts == [] && ips == []
    ensures conf.Scanned? && !conf.scanFailed ==>
              hosts == DNSHosts(conf.lines, v6) && ips == DNSIPs(conf.lines, v6)
  {
    if conf.Unopenable? {
      return [], [];
    }
    var srvhosts: seq<string> := [];
    var srvips: seq<IP> := [];
    var lines := conf.lines;
    for i := 0 to |lines|
      invariant srvhosts == DNSHosts(lines[..i], v6)
      invariant srvips == DNSIPs(lines[..i], v6)
    {
      assert lines[..i + 1][..i] == lines[..i];
      var fields := Fields(lines[i]);
      if |fields| >= 2 && fields[0] == "nameserver" {
        if ParseIP(fields[1], v6).None? {
          srvhosts := srvhosts + [fields[1]];
        } else {
          srvips := srvips + [ParseIP(fields[1], v6).value];
        }
      }
    }
    if conf.scanFailed {
      return [], [];
    }
    assert lines[..|lines|] == lines;
    return srvhosts, srvips;
  }

  /** A line contributes exactly when it is a nameserver directive with a
      value; leading blanks do not matter. */
  lemma ClassifyLineContributes(line: string, v6: string -> Option<IP>)
    ensures ClassifyLine(line, v6) != Ignored <==>
            |Fields(line)| >= 2 && Fields(line)[0] == "nameserver"
    ensures ClassifyLine([' '] + line, v6) == ClassifyLine(line, v6)
  {
    assert ([' '] + line)[1..] == line;
  }

  /** "nameserver a.b.c.d" contributes the address in 16-byte form (not the
      four-byte `To4` form the IP flag yields), whatever follows it. */
  lemma NameserverAddressLine(a: Byte, b: Byte, c: Byte, d: Byte, rest: seq<string>, v6: string -> Option<IP>)
    requires forall i :: 0 <= i < |rest| ==> rest[i] != [] && NoSpace(rest[i])
    ensures ClassifyLine(Unwords(["nameserver", DottedQuad(a, b, c, d)] + rest), v6)
            == ServerIP(V4InV6Prefix + [a, b, c, d])
  {
    var words := ["nameserver", DottedQuad(a, b, c, d)] + rest;
    assert AllDigits(Decimal(a)) && AllDigits(Decimal(b)) && AllDigits(Decimal(c)) && AllDigits(Decimal(d));
    JoinNoSpace([Decimal(a), Decimal(b), Decimal(c), Decimal(d)], '.');
    forall i | 0 <= i < |words| ensures words[i] != [] && NoSpace(words[i]) {
      if i >= 2 {
        assert words[i] == rest[i - 2];
      }
    }
    FieldsUnwords(words);
    ParseDottedQuad(a, b, c, d, v6);
  }

  /** A nameserver value that does not parse is kept as a host name. */
  lemma NameserverHostLine(h: string, rest: seq<string>, v6: string -> Option<IP>)
    requires h != [] && NoSpace(h) && ParseIP(h, v6).None?
    requires forall i :: 0 <= i < |rest| ==> rest[i] != [] && NoSpace(rest[i])
    ensures ClassifyLine(Unwords(["nameserver", h] + rest), v6) == ServerHost(h)
  {
    var words := ["nameserver", h] + rest;
    forall i | 0 <= i < |words| ensures words[i] != [] && NoSpace(words[i]) {
      if i >= 2 {
        assert words[i] == rest[i - 2];
      }
    }
    FieldsUnwords(words);
  }

  /** Nameserver lines, and only they, contribute: each one exactly one
      entry, to one of the two lists. */
  lemma {:induction false} DNSServersCount(lines: seq<string>, v6: string -> Option<IP>)
    ensures |DNSHosts(lines, v6)| + |DNSIPs(lines, v6)| == NumNameservers(lines, v6)
  {
    if lines != [] {
      DNSServersCount(lines[..|lines| - 1], v6);
    }
  }

  function NumNameservers(lines: seq<string>, v6: string -> Option<IP>): nat
  {
    if lines == [] then 0
    else NumNameservers(lines[..|lines| - 1], v6)
         + (if ClassifyLine(lines[|lines| - 1], v6) != Ignored then 1 else 0)
  }

  // -------------------------------------------------------------- ToDataJson

  /** `domain.Data`: the allow-list configuration. */
  datatype Data = Data(allowedHosts: seq<string>, allowedIPs: seq<IP>,
                       allowGithubMeta: bool, allowLocalIPRanges: bool)

  /** `ToDataJson`: resolv.conf's servers first, then the flags' entries;
      the two booleans are copied unchanged. */
  method ToDataJson(allowedHosts: string, allowedIPs: string, ghrange: bool, localrange: bool,
                    conf: ResolvConf, v6: string -> Option<IP>) returns (d: Data)
    ensures d.allowGithubMeta == ghrange && d.allowLocalIPRanges == localrange
    ensures var dnsOk := conf.Scanned? && !conf.scanFailed;
            && d.allowedHosts == (if dnsOk then DNSHosts(conf.lines, v6) else []) + AllowedHosts(allowedHosts)
            && d.allowedIPs == (if dnsOk then DNSIPs(conf.lines, v6) else []) + AllowedIPAddr(allowedIPs, v6)
    ensures |d.allowedIPs| >= 3 && d.allowedIPs[|d.allowedIPs| - 3..] == InfraIPs
  {
    var hosts, ips := GetDNSServers(conf, v6);
    var hl := ParseAllowedHosts(allowedHosts);
    assert hl == AllowedHosts(allowedHosts);
    var iplist := ParseAllowedIPAddr(allowedIPs, v6);
    EndsWithInfra(ips, allowedIPs, v6);
    d := Data(hosts + hl, ips + iplist, ghrange, localrange);
  }

  /** Whatever comes before it, the parsed IP flag puts the three
      infrastructure addresses last. */
  lemma EndsWithInfra(front: seq<IP>, allowedIPs: string, v6: string -> Option<IP>)
    ensures var all := front + AllowedIPAddr(allowedIPs, v6);
            |all| >= 3 && all[|all| - 3..] == InfraIPs
  {
    var all := front + AllowedIPAddr(allowedIPs, v6);
    assert all == (front + AcceptedIPs(Split(allowedIPs, ','), v6)) + InfraIPs;
  }
}
