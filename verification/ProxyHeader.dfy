/** The PROXY protocol version 1 header of client/src/main.rs (`build_proxy_protocol_header`). */
module ProxyHeader {
  import opened Base
  import opened Text
  import opened Wire

  const DEFAULT_PORT: u16 := 25565
  const MAX_V1_LINE: nat := 107

  // ---------------------------------------------------------------- the configured local address

  function LocalAddress(ip: string, port: u16): string {
    ip + ":" + Decimal(port)
  }

  /** `str::parse::<u16>`: digits, one optional plus sign, and no overflow. */
  function ParseU16(s: string): Option<u16> {
    var digits := if |s| > 1 && s[0] == '+' then s[1..] else s;
    if AllDigits(digits) && Value(digits) < 0x1_0000 then Some(Value(digits)) else None
  }

  function TrimStart(s: string, c: char): string {
    if s != "" && s[0] == c then TrimStart(s[1..], c) else s
  }

  function TrimEnd(s: string, c: char): string {
    if s != "" && s[|s| - 1] == c then TrimEnd(s[..|s| - 1], c) else s
  }

  function Unbracketed(ip: string): string {
    TrimEnd(TrimStart(ip, '['), ']')
  }

  function DestinationPort(local: string): u16 {
    var port := ParseU16(local[LastIndex(local, ':') + 1..]);
    if port.Some? then port.value else DEFAULT_PORT
  }

  function DestinationIp(local: string): string {
    var colon := LastIndex(local, ':');
    Unbracketed(if colon < 0 then "127.0.0.1" else local[..colon])
  }

  ghost predicate All(s: string, c: char) {
    forall x | x in s :: x == c
  }

  lemma {:induction false} TrimmedStart(s: string, c: char) returns (cut: string)
    ensures s == cut + TrimStart(s, c) && All(cut, c)
    ensures TrimStart(s, c) != "" ==> TrimStart(s, c)[0] != c
  {
    cut := "";
    if s != "" && s[0] == c {
      var rest := TrimmedStart(s[1..], c);
      cut := [c] + rest;
    }
  }

  lemma {:induction false} TrimmedEnd(s: string, c: char) returns (cut: string)
    ensures s == TrimEnd(s, c) + cut && All(cut, c)
    ensures var r := TrimEnd(s, c); (r != "" ==> r[|r| - 1] != c) && r <= s
  {
    cut := "";
    if s != "" && s[|s| - 1] == c {
      var rest := TrimmedEnd(s[..|s| - 1], c);
      cut := rest + [c];
    }
  }

  /** Exactly the opening brackets before and the closing brackets behind an ip are stripped. */
  lemma StrippedExactly(ip: string) returns (before: string, behind: string)
    ensures ip == before + Unbracketed(ip) + behind && All(before, '[') && All(behind, ']')
    ensures var r := Unbracketed(ip); r != "" ==> r[0] != '[' && r[|r| - 1] != ']'
  {
    before := TrimmedStart(ip, '[');
    behind := TrimmedEnd(TrimStart(ip, '['), ']');
    hide TrimStart, TrimEnd;
    assert before + (Unbracketed(ip) + behind) == before + Unbracketed(ip) + behind;
  }

  /** Without a colon there is no ip to take, and the whole text is read as the port. */
  lemma WithoutColon(local: string)
    requires ':' !in local
    ensures DestinationIp(local) == "127.0.0.1"
    ensures DestinationPort(local) == match ParseU16(local) case Some(port) => port case None => 25565
  {
    NoLastIndex(local);
    LoopbackIsPlain();
    hide Unbracketed, ParseU16, LastIndex;
    assert local[0..] == local;
  }

  lemma NoLastIndex(s: string)
    requires ':' !in s
    ensures LastIndex(s, ':') == -1
  {
    hide LastIndex;
  }

  lemma LoopbackIsPlain()
    ensures Unbracketed("127.0.0.1") == "127.0.0.1"
  {
    var ip := "127.0.0.1";
    assert |ip| == 9 && ip[0] == '1' && ip[8] == '1';
  }

  /** For every configured ip, whatever characters it holds, the last colon separates it from the port again. */
  lemma LocalAddressSplits(ip: string, port: u16)
    ensures DestinationIp(LocalAddress(ip, port)) == Unbracketed(ip)
    ensures DestinationPort(LocalAddress(ip, port)) == port
  {
    var local := LocalAddress(ip, port);
    DecimalValue(port);
    DecimalLacks(port, ':');
    LastIndexBefore(ip, ':', Decimal(port));
    assert local == ip + [':'] + Decimal(port);
    assert local[..|ip|] == ip && local[|ip| + 1..] == Decimal(port);
    assert Decimal(port)[0] in Decimal(port);
  }

  // ---------------------------------------------------------------- building the header

  function Dotted(ip: Octets4): string {
    Join([Decimal(ip[0]), Decimal(ip[1]), Decimal(ip[2]), Decimal(ip[3])], ".")
  }

  /** IPv4-mapped addresses of section 2.5.5.2 of RFC 4291. */
  function Mapped(ip: Octets16): Option<Octets4> {
    if ip[..10] == [0, 0, 0, 0, 0, 0, 0, 0, 0, 0] && ip[10] == 0xFF && ip[11] == 0xFF then Some(ip[12..]) else None
  }

  function Line(proto: string, src: string, dst: string, srcPort: u16, dstPort: u16): string {
    Join(["PROXY", proto, src, dst, Decimal(srcPort), Decimal(dstPort)], " ") + "\r\n"
  }

  /** `show6` is the textual form of a genuine IPv6 address. */
  function Header(peer: Option<SocketAddr>, local: string, show6: Octets16 -> string): string {
    match peer
    case None => "PROXY UNKNOWN\r\n"
    case Some(V4(ip, port)) => Line("TCP4", Dotted(ip), DestinationIp(local), port, DestinationPort(local))
    case Some(V6(ip, port, _, _)) =>
      var mapped := Mapped(ip);
      var dst := DestinationIp(local);
      if mapped.Some? then Line("TCP4", Dotted(mapped.value), dst, port, DestinationPort(local))
      else Line("TCP6", show6(ip), if ':' in dst then dst else "::1", port, DestinationPort(local))
  }

  /** The IPv4 address a peer really has, when it has one. */
  function PeerIp4(peer: SocketAddr): Option<Octets4> {
    match peer
    case V4(ip, _) => Some(ip)
    case V6(ip, _, _, _) => Mapped(ip)
  }

  // ---------------------------------------------------------------- reading the header back

  datatype ProxyLine = ProxyLine(src: Octets4, dst: Octets4, srcPort: u16, dstPort: u16)

  function ParseNumber(s: string, limit: nat): Option<nat> {
    if Canonical(s) && Value(s) < limit then Some(Value(s)) else None
  }

  function ParseDotted(s: string): Option<Octets4> {
    var parts := Split(s, '.');
    if |parts| != 4 then None else
    var a, b := ParseNumber(parts[0], 256), ParseNumber(parts[1], 256);
    var c, d := ParseNumber(parts[2], 256), ParseNumber(parts[3], 256);
    if a.Some? && b.Some? && c.Some? && d.Some? then Some([a.value, b.value, c.value, d.value]) else None
  }

  /** A TCP4 line as section 2.1 of the PROXY protocol specification lays it out. */
  function ParseTcp4(line: string): Option<ProxyLine> {
    if |line| < 2 || |line| > MAX_V1_LINE || line[|line| - 2..] != "\r\n" then None else
    var parts := Split(line[..|line| - 2], ' ');
    if |parts| != 6 || parts[0] != "PROXY" || parts[1] != "TCP4" then None else
    var src, dst := ParseDotted(parts[2]), ParseDotted(parts[3]);
    var sport, dport := ParseNumber(parts[4], 0x1_0000), ParseNumber(parts[5], 0x1_0000);
    if src.Some? && dst.Some? && sport.Some? && dport.Some?
    then Some(ProxyLine(src.value, dst.value, sport.value, dport.value)) else None
  }

  lemma NumberReadsBack(n: nat, limit: nat)
    requires n < limit
    ensures ParseNumber(Decimal(n), limit) == Some(n)
  {
    DecimalValue(n);
  }

  lemma DottedReadsBack(ip: Octets4)
    ensures ParseDotted(Dotted(ip)) == Some(ip)
  {
    var parts := [Decimal(ip[0]), Decimal(ip[1]), Decimal(ip[2]), Decimal(ip[3])];
    forall i | 0 <= i < 4
      ensures '.' !in parts[i] && ParseNumber(parts[i], 256) == Some(ip[i])
    {
      DecimalLacks(ip[i], '.');
      NumberReadsBack(ip[i], 256);
    }
    SplitJoin(parts, '.');
    assert [ip[0], ip[1], ip[2], ip[3]] == ip;
  }

  lemma DottedForm(ip: Octets4)
    ensures Dotted(ip) == Decimal(ip[0]) + "." + (Decimal(ip[1]) + "." + (Decimal(ip[2]) + "." + Decimal(ip[3])))
    ensures |Dotted(ip)| <= 15
  {
    var a, b, c, d := Decimal(ip[0]), Decimal(ip[1]), Decimal(ip[2]), Decimal(ip[3]);
    JoinFirst(c, [d], ".");
    JoinFirst(b, [c, d], ".");
    JoinFirst(a, [b, c, d], ".");
    assert [a] + [b, c, d] == [a, b, c, d] && [b] + [c, d] == [b, c, d] && [c] + [d] == [c, d];
    DecimalLength(ip[0]);
    DecimalLength(ip[1]);
    DecimalLength(ip[2]);
    DecimalLength(ip[3]);
  }

  lemma DottedLacks(ip: Octets4, c: char)
    requires !IsDigit(c) && c != '.'
    ensures c !in Dotted(ip)
  {
    DottedForm(ip);
    DecimalLacks(ip[0], c);
    DecimalLacks(ip[1], c);
    DecimalLacks(ip[2], c);
    DecimalLacks(ip[3], c);
  }

  /** An IPv4 literal has no brackets to strip. */
  lemma DottedUnbracketed(ip: Octets4)
    ensures Unbracketed(Dotted(ip)) == Dotted(ip)
  {
    DottedLacks(ip, '[');
    DottedLacks(ip, ']');
  }

  lemma LineReadsBack(src: Octets4, dst: Octets4, srcPort: u16, dstPort: u16)
    ensures ParseTcp4(Line("TCP4", Dotted(src), Dotted(dst), srcPort, dstPort)) ==
      Some(ProxyLine(src, dst, srcPort, dstPort))
  {
    var parts := ["PROXY", "TCP4", Dotted(src), Dotted(dst), Decimal(srcPort), Decimal(dstPort)];
    var body := Join(parts, " ");
    forall p | p in parts
      ensures ' ' !in p
    {
      DottedLacks(src, ' ');
      DottedLacks(dst, ' ');
      DecimalLacks(srcPort, ' ');
      DecimalLacks(dstPort, ' ');
    }
    SplitJoin(parts, ' ');
    LineLength(src, dst, srcPort, dstPort);
    assert (body + "\r\n")[..|body|] == body;
    DottedReadsBack(src);
    DottedReadsBack(dst);
    NumberReadsBack(srcPort, 0x1_0000);
    NumberReadsBack(dstPort, 0x1_0000);
  }

  lemma JoinLength(a: string, b: string, c: string, d: string, e: string, f: string)
    ensures |Join([a, b, c, d, e, f], " ")| == |a| + |b| + |c| + |d| + |e| + |f| + 5
  {
    JoinFirst(e, [f], " ");
    JoinFirst(d, [e, f], " ");
    JoinFirst(c, [d, e, f], " ");
    JoinFirst(b, [c, d, e, f], " ");
    JoinFirst(a, [b, c, d, e, f], " ");
    assert [e] + [f] == [e, f] && [d] + [e, f] == [d, e, f] && [c] + [d, e, f] == [c, d, e, f];
    assert [b] + [c, d, e, f] == [b, c, d, e, f] && [a] + [b, c, d, e, f] == [a, b, c, d, e, f];
  }

  lemma LineLength(src: Octets4, dst: Octets4, srcPort: u16, dstPort: u16)
    ensures |Line("TCP4", Dotted(src), Dotted(dst), srcPort, dstPort)| <= 56 <= MAX_V1_LINE == 107
  {
    DottedForm(src);
    DottedForm(dst);
    DecimalLength(srcPort);
    DecimalLength(dstPort);
    JoinLength("PROXY", "TCP4", Dotted(src), Dotted(dst), Decimal(srcPort), Decimal(dstPort));
  }

  /**
   * For an IPv4 peer, plain or mapped into IPv6, and an IPv4 local address, the backend reads the peer's own
   * address and port, and the local address and port, out of the header.
   */
  lemma BackendSeesPeer(peer: SocketAddr, ip: Octets4, port: u16, show6: Octets16 -> string)
    requires PeerIp4(peer).Some?
    ensures ParseTcp4(Header(Some(peer), LocalAddress(Dotted(ip), port), show6)) ==
      Some(ProxyLine(PeerIp4(peer).value, ip, peer.port, port))
  {
    LocalAddressSplits(Dotted(ip), port);
    DottedUnbracketed(ip);
    LineReadsBack(PeerIp4(peer).value, ip, peer.port, port);
  }

  /** The header the client builds from a received NewConnection is the one for the address the server accepted. */
  lemma {:induction false} HeaderSurvivesWire(m: Message, local: string, show6: Octets16 -> string)
    requires m.NewConnection?
    ensures var read := Decode(Encode(m));
      && read.Ok? && read.value.NewConnection?
      && Header(read.value.peerAddr, local, show6) == Header(m.peerAddr, local, show6)
  {
    DecodeEncode(m);
  }

  /** The mapped addresses are ten zero bytes, two bytes 255 and the IPv4 address. */
  lemma MappedExactly(ip: Octets16, ip4: Octets4)
    ensures Mapped(ip) == Some(ip4) <==> ip == [0, 0, 0, 0, 0, 0, 0, 0, 0, 0, 255, 255] + ip4
  {
    if Mapped(ip) == Some(ip4) {
      assert ip == ip[..10] + [ip[10], ip[11]] + ip[12..];
    }
  }

  /** Without an address there is nothing to say about the peer. */
  lemma UnknownPeer(local: string, show6: Octets16 -> string)
    ensures Header(None, local, show6) == "PROXY UNKNOWN\r\n"
  {
  }

  lemma HeaderForIpv6(peer: SocketAddr, local: string, show6: Octets16 -> string)
    requires peer.V6? && Mapped(peer.ip6).None?
    ensures var dst := DestinationIp(local);
      Header(Some(peer), local, show6) ==
        Line("TCP6", show6(peer.ip6), if ':' in dst then dst else "::1", peer.port, DestinationPort(local))
  {
    hide Line;
  }

  /**
   * For a genuine IPv6 peer and any configured ip, the line is for the peer's address, the stripped ip if it is IPv6
   * and the loopback address if not, the peer's port and the configured port.
   */
  lemma {:induction false} Tcp6Line(peer: SocketAddr, ip: string, port: u16, show6: Octets16 -> string)
    requires peer.V6? && Mapped(peer.ip6).None?
    ensures var dst := Unbracketed(ip);
      Header(Some(peer), LocalAddress(ip, port), show6) ==
        Line("TCP6", show6(peer.ip6), if ':' in dst then dst else "::1", peer.port, port)
  {
    hide *;
    LocalAddressSplits(ip, port);
    HeaderForIpv6(peer, LocalAddress(ip, port), show6);
  }

  /** A line splits at its blanks into its six fields, in this order. */
  lemma FieldsReadBack(proto: string, src: string, dst: string, srcPort: u16, dstPort: u16)
    requires ' ' !in proto && ' ' !in src && ' ' !in dst
    ensures var line := Line(proto, src, dst, srcPort, dstPort);
      && |line| >= 2 && line[|line| - 2..] == "\r\n"
      && Split(line[..|line| - 2], ' ') == ["PROXY", proto, src, dst, Decimal(srcPort), Decimal(dstPort)]
  {
    var parts := ["PROXY", proto, src, dst, Decimal(srcPort), Decimal(dstPort)];
    var body := Join(parts, " ");
    DecimalLacks(srcPort, ' ');
    DecimalLacks(dstPort, ' ');
    hide Join, Split, Decimal;
    assert AllLack(parts, ' ');
    SplitJoin(parts, ' ');
    assert (body + "\r\n")[..|body|] == body;
  }
}
