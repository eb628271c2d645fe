// internal/pbr/networks.go: canonical IPv4 networks, their merge, and the
// text of the state files.
module Networks {
  import opened Strings

  const DEFAULT_MAX_NETWORKS := 4096
  const MINIMUM_PREFIX_BITS := 24

  type Octet = bv8
  type IPv4 = s: seq<Octet> | |s| == 4 witness [0, 0, 0, 0]

  // ---- decimal text (net.ParseIP and net.ParseCIDR on dotted decimals) ----

  predicate IsDigits(s: string) {
    forall i | 0 <= i < |s| :: '0' <= s[i] <= '9'
  }

  function DigitValue(c: char): nat
    requires '0' <= c <= '9'
  {
    c as int - '0' as int
  }

  function Digit(n: nat): char
    requires n < 10
  {
    (n + '0' as int) as char
  }

  function DecimalValue(s: string): nat
    requires IsDigits(s)
  {
    if s == "" then 0 else DecimalValue(s[..|s| - 1]) * 10 + DigitValue(s[|s| - 1])
  }

  function Decimal(n: nat): string
    requires n < 1000
  {
    if n < 10 then [Digit(n)]
    else if n < 100 then [Digit(n / 10), Digit(n % 10)]
    else [Digit(n / 100), Digit(n / 10 % 10), Digit(n % 10)]
  }

  lemma DecimalSnoc(s: string, n: nat)
    requires IsDigits(s) && n < 10
    ensures IsDigits(s + [Digit(n)])
    ensures DecimalValue(s + [Digit(n)]) == DecimalValue(s) * 10 + n
  {
    assert (s + [Digit(n)])[..|s|] == s;
  }

  lemma DecimalOne(c: nat)
    requires c < 10
    ensures IsDigits([Digit(c)]) && DecimalValue([Digit(c)]) == c
  {
    DecimalSnoc("", c);
    assert "" + [Digit(c)] == [Digit(c)];
  }

  lemma DecimalTwo(b: nat, c: nat)
    requires b < 10 && c < 10
    ensures IsDigits([Digit(b), Digit(c)]) && DecimalValue([Digit(b), Digit(c)]) == 10 * b + c
  {
    hide Digit, DecimalValue;
    DecimalOne(b);
    DecimalSnoc([Digit(b)], c);
    assert [Digit(b)] + [Digit(c)] == [Digit(b), Digit(c)];
  }

  lemma DecimalThree(a: nat, b: nat, c: nat)
    requires a < 10 && b < 10 && c < 10
    ensures IsDigits([Digit(a), Digit(b), Digit(c)])
    ensures DecimalValue([Digit(a), Digit(b), Digit(c)]) == 100 * a + 10 * b + c
  {
    hide Digit, DecimalValue;
    DecimalTwo(a, b);
    DecimalSnoc([Digit(a), Digit(b)], c);
    assert [Digit(a), Digit(b)] + [Digit(c)] == [Digit(a), Digit(b), Digit(c)];
  }

  lemma DecimalRoundTrip(n: nat)
    requires n < 1000
    ensures IsDigits(Decimal(n)) && DecimalValue(Decimal(n)) == n
    ensures n >= 10 ==> Decimal(n)[0] != '0'
  {
    hide DecimalValue, IsDigits, Digit;
    if n < 10 {
      DecimalOne(n);
    } else if n < 100 {
      DecimalTwo(n / 10, n % 10);
      DigitNotZero(n / 10);
    } else {
      DecimalThree(n / 100, n / 10 % 10, n % 10);
      DigitNotZero(n / 100);
    }
  }

  lemma DigitNotZero(n: nat)
    requires 0 < n < 10
    ensures Digit(n) != '0'
  {
  }

  lemma DigitsFree(s: string)
    requires IsDigits(s)
    ensures Free(s, SPACES + {'.', '/'}) && Free(s, {'.'}) && Free(s, SPACES + {'/'}) && Free(s, {'/'})
  {
    forall i | 0 <= i < |s| ensures s[i] !in SPACES + {'.', '/'} {
      assert '0' <= s[i] <= '9';
    }
  }

  function ParseOctet(s: string): Option<Octet> {
    if 1 <= |s| <= 3 && IsDigits(s) && (|s| > 1 ==> s[0] != '0') && DecimalValue(s) < 256
    then Some(DecimalValue(s) as bv8) else None
  }

  function ParseIPv4(s: string): Option<IPv4> {
    var parts := SplitBy(s, {'.'});
    if |parts| != 4 then None
    else match (ParseOctet(parts[0]), ParseOctet(parts[1]), ParseOctet(parts[2]), ParseOctet(parts[3]))
      case (Some(a), Some(b), Some(c), Some(d)) => Some([a, b, c, d])
      case _ => None
  }

  // The address and the prefix length, before masking.
  function ParseCIDR(s: string): (r: Option<(IPv4, nat)>)
    ensures r.Some? ==> r.value.1 <= 32
  {
    var parts := SplitBy(s, {'/'});
    if |parts| != 2 then None
    else if parts[1] == "" || !IsDigits(parts[1]) || DecimalValue(parts[1]) > 32 then None
    else match ParseIPv4(parts[0])
      case Some(ip) => Some((ip, DecimalValue(parts[1])))
      case None => None
  }

  function OctetTexts(octets: seq<Octet>): seq<string> {
    seq(|octets|, i requires 0 <= i < |octets| => Decimal(octets[i] as nat))
  }

  // net.IP.String
  function RenderIP(octets: seq<Octet>): string {
    if octets == [] then ""
    else if |octets| == 1 then Decimal(octets[0] as nat)
    else Decimal(octets[0] as nat) + "." + RenderIP(octets[1..])
  }

  lemma {:induction false} RenderIPJoins(octets: seq<Octet>)
    ensures RenderIP(octets) == Join(OctetTexts(octets), '.')
  {
    if |octets| <= 1 {
    } else {
      RenderIPJoins(octets[1..]);
      assert OctetTexts(octets)[1..] == OctetTexts(octets[1..]);
      assert "." == ['.'];
    }
  }

  function Render(ip: IPv4, ones: nat): string
    requires ones <= 32
  {
    RenderIP(ip) + "/" + Decimal(ones)
  }

  lemma OctetRoundTrip(o: Octet)
    ensures ParseOctet(Decimal(o as nat)) == Some(o)
    ensures Free(Decimal(o as nat), {'.'}) && Free(Decimal(o as nat), SPACES + {'/'})
  {
    DecimalRoundTrip(o as nat);
    DigitsFree(Decimal(o as nat));
  }

  lemma ParseParts(s: string, parts: seq<string>, ip: IPv4)
    requires SplitBy(s, {'.'}) == parts && |parts| == 4
    requires forall i | 0 <= i < 4 :: ParseOctet(parts[i]) == Some(ip[i])
    ensures ParseIPv4(s) == Some(ip)
  {
    assert ip == [ip[0], ip[1], ip[2], ip[3]];
  }

  lemma RenderIPRoundTrip(ip: IPv4)
    ensures ParseIPv4(RenderIP(ip)) == Some(ip)
    ensures Free(RenderIP(ip), SPACES + {'/'})
  {
    var parts := OctetTexts(ip);
    RenderIPJoins(ip);
    forall i | 0 <= i < 4
      ensures ParseOctet(parts[i]) == Some(ip[i])
      ensures Free(parts[i], {'.'}) && Free(parts[i], SPACES + {'/'})
    {
      OctetRoundTrip(ip[i]);
    }
    SplitJoin(parts, '.', {'.'});
    assert '.' !in SPACES;
    JoinFree(parts, '.', SPACES + {'/'});
    ParseParts(RenderIP(ip), parts, ip);
  }

  lemma {:induction false} JoinFree(parts: seq<string>, sep: char, seps: set<char>)
    requires forall p | p in parts :: Free(p, seps)
    requires sep !in seps
    ensures Free(Join(parts, sep), seps)
  {
    if |parts| == 0 {
    } else {
      assert parts[0] in parts;
      forall p | p in parts[1..] ensures Free(p, seps) { assert p in parts; }
      JoinFree(parts[1..], sep, seps);
    }
  }

  lemma RenderRoundTrip(ip: IPv4, ones: nat)
    requires ones <= 32
    ensures ParseCIDR(Render(ip, ones)) == Some((ip, ones))
    ensures Free(Render(ip, ones), SPACES) && '/' in Render(ip, ones)
  {
    RenderIPRoundTrip(ip);
    DecimalRoundTrip(ones);
    DigitsFree(Decimal(ones));
    var parts := [RenderIP(ip), Decimal(ones)];
    forall p | p in parts ensures Free(p, {'/'}) {}
    SplitJoin(parts, '/', {'/'});
    assert Join(parts[1..], '/') == Decimal(ones);
    assert Join(parts, '/') == RenderIP(ip) + ['/'] + Decimal(ones);
    assert Render(ip, ones)[|RenderIP(ip)|] == '/';
  }

  // ---- masks ----

  // How many of the leading mask bits fall in octet i.
  function OctetBits(ones: nat, i: nat): (k: nat)
    ensures k <= 8
  {
    if ones <= 8 * i then 0 else if ones >= 8 * i + 8 then 8 else ones - 8 * i
  }

  // A mask octet of k leading ones.
  function MaskBits(k: nat): Octet
    requires k <= 8
  {
    if k == 0 then 0 else (MaskBits(k - 1) >> 1) | 0x80
  }

  // net.CIDRMask(ones, 32)
  function CIDRMask(ones: nat): IPv4 {
    seq(4, i requires 0 <= i < 4 => MaskBits(OctetBits(ones, i)))
  }

  // net.IP.Mask
  function MaskIP(ip: IPv4, mask: IPv4): IPv4 {
    seq(4, i requires 0 <= i < 4 => ip[i] & mask[i])
  }

  function LastIPv4(ip: IPv4, mask: IPv4): IPv4 {
    seq(4, i requires 0 <= i < 4 => ip[i] | !mask[i])
  }

  // lastIPv4 as the source computes it, octet by octet into a fresh buffer.
  method FillLastIPv4(ip: IPv4, mask: IPv4) returns (last: array<Octet>)
    ensures fresh(last) && last[..] == LastIPv4(ip, mask)
  {
    last := new Octet[4];
    for i := 0 to 4
      invariant forall j | 0 <= j < i :: last[j] == ip[j] | !mask[j]
    {
      last[i] := ip[i] | !mask[i];
    }
  }

  // The addresses net.IPNet.Contains accepts.
  predicate InBlock(x: IPv4, network: IPv4, mask: IPv4) {
    MaskIP(x, mask) == MaskIP(network, mask)
  }

  ghost predicate AtMost(x: IPv4, y: IPv4) {
    forall i | 0 <= i < 4 :: x[i] <= y[i]
  }

  lemma SameMask(x: IPv4, y: IPv4, mask: IPv4)
    ensures MaskIP(x, mask) == MaskIP(y, mask) <==> forall i | 0 <= i < 4 :: x[i] & mask[i] == y[i] & mask[i]
  {
    var a, b := MaskIP(x, mask), MaskIP(y, mask);
    assert forall i | 0 <= i < 4 :: a[i] == x[i] & mask[i] && b[i] == y[i] & mask[i];
    if forall i | 0 <= i < 4 :: x[i] & mask[i] == y[i] & mask[i] {
      assert a == b;
    }
  }

  lemma MaskOctet(o: Octet, x: Octet, m: Octet)
    ensures (o & m) & m == o & m && (o | !m) & m == o & m
    ensures x & m == o & m ==> o & m <= x <= o | !m
  {
  }

  // The masked address and lastIPv4 are the least and the greatest address of
  // the block, in every octet.
  lemma BlockBounds(ip: IPv4, mask: IPv4)
    ensures InBlock(MaskIP(ip, mask), ip, mask) && InBlock(LastIPv4(ip, mask), ip, mask)
    ensures forall x: IPv4 | InBlock(x, ip, mask) :: AtMost(MaskIP(ip, mask), x) && AtMost(x, LastIPv4(ip, mask))
  {
    forall i | 0 <= i < 4
      ensures MaskIP(ip, mask)[i] & mask[i] == ip[i] & mask[i] && LastIPv4(ip, mask)[i] & mask[i] == ip[i] & mask[i]
    {
      MaskOctet(ip[i], ip[i], mask[i]);
    }
    SameMask(MaskIP(ip, mask), ip, mask);
    SameMask(LastIPv4(ip, mask), ip, mask);
    forall x: IPv4 | InBlock(x, ip, mask) ensures AtMost(MaskIP(ip, mask), x) && AtMost(x, LastIPv4(ip, mask)) {
      SameMask(x, ip, mask);
      forall i | 0 <= i < 4 ensures MaskIP(ip, mask)[i] <= x[i] <= LastIPv4(ip, mask)[i] {
        MaskOctet(ip[i], x[i], mask[i]);
      }
    }
  }

  lemma {:induction false} MaskBitsNest(j: nat, k: nat)
    requires j <= k <= 8
    ensures MaskBits(j) & MaskBits(k) == MaskBits(j)
  {
    if j == 0 {
    } else {
      MaskBitsNest(j - 1, k - 1);
    }
  }

  lemma CoarserOctet(x: Octet, y: Octet, m: Octet, n: Octet)
    requires m & n == m && x & n == y & n
    ensures x & m == y & m
  {
    assert x & m == (x & n) & m;
  }

  // From 24 bits on, a mask leaves the first three octets alone.
  lemma NarrowMask(ones: nat)
    requires MINIMUM_PREFIX_BITS <= ones <= 32
    ensures CIDRMask(ones)[..3] == [0xff, 0xff, 0xff] && CIDRMask(ones)[3] == MaskBits(ones - 24)
  {
    assert MaskBits(8) == 0xff;
    assert CIDRMask(ones)[3] == MaskBits(OctetBits(ones, 3));
  }

  lemma NarrowBlock(x: IPv4, ip: IPv4, ones: nat)
    requires MINIMUM_PREFIX_BITS <= ones <= 32 && InBlock(x, ip, CIDRMask(ones))
    ensures x[..3] == ip[..3]
  {
    var mask := CIDRMask(ones);
    NarrowMask(ones);
    SameMask(x, ip, mask);
    forall i | 0 <= i < 3 ensures x[i] == ip[i] {
      assert mask[i] == mask[..3][i] == 0xff;
      AllOnes(x[i], mask[i]);
      AllOnes(ip[i], mask[i]);
    }
  }

  lemma AllOnes(o: Octet, m: Octet)
    requires m == 0xff
    ensures o & m == o
  {
  }

  // ---- the public address space ----

  predicate IsPublic(v: IPv4) {
    PublicOctets(v[0], v[1], v[2])
  }

  predicate PublicOctets(a: Octet, b: Octet, c: Octet) {
    if a == 0 || a == 10 || a == 127 || a >= 224 then false
    else if
      || (a == 100 && b >= 64 && b <= 127)
      || (a == 169 && b == 254)
      || (a == 172 && b >= 16 && b <= 31)
      || (a == 192 && (b == 0 || b == 168))
      || (a == 198 && (b == 18 || b == 19 || (b == 51 && c == 100)))
      || (a == 203 && b == 0 && c == 113)
    then false
    else true
  }

  function CanonicalNetwork(raw: string): Option<string> {
    var value := TrimSpace(raw);
    if value == "" then None
    else if '/' !in value then
      match ParseIPv4(value)
      case None => None
      case Some(ip) => if IsPublic(ip) then Some(RenderIP(ip) + "/32") else None
    else
      match ParseCIDR(value)
      case None => None
      case Some((ip, ones)) =>
        var network := MaskIP(ip, CIDRMask(ones));
        if ones < MINIMUM_PREFIX_BITS || !IsPublic(network) || !IsPublic(LastIPv4(network, CIDRMask(ones))) then None
        else Some(Render(network, ones))
  }

  // strings.HasSuffix(value, "/32")
  predicate IsHost(value: string) {
    |value| >= 3 && value[|value| - 3..] == "/32"
  }

  ghost predicate Canonical(s: string) {
    CanonicalNetwork(s) == Some(s)
  }

  // The addresses a network's text stands for, for any text ParseCIDR reads.
  predicate Covers(text: string, x: IPv4) {
    match ParseCIDR(text)
    case None => false
    case Some((ip, ones)) => InBlock(x, ip, CIDRMask(ones))
  }

  ghost predicate Masked(ip: IPv4, ones: nat) {
    MINIMUM_PREFIX_BITS <= ones <= 32 && MaskIP(ip, CIDRMask(ones)) == ip
  }

  lemma MaskedHost(ip: IPv4)
    ensures Masked(ip, 32) && LastIPv4(ip, CIDRMask(32)) == ip
  {
    NarrowMask(32);
    assert MaskBits(8) == 0xff;
    forall i | 0 <= i < 4 ensures MaskIP(ip, CIDRMask(32))[i] == ip[i] == LastIPv4(ip, CIDRMask(32))[i] {
      assert i < 3 ==> CIDRMask(32)[i] == CIDRMask(32)[..3][i];
      AllOnes(ip[i], CIDRMask(32)[i]);
    }
  }

  // Everything CanonicalNetwork returns is the rendering of a masked public network.
  lemma CanonicalShape(raw: string) returns (ip: IPv4, ones: nat)
    requires CanonicalNetwork(raw).Some?
    ensures Masked(ip, ones) && CanonicalNetwork(raw) == Some(Render(ip, ones))
    ensures IsPublic(ip) && IsPublic(LastIPv4(ip, CIDRMask(ones)))
  {
    var value := TrimSpace(raw);
    if '/' !in value {
      ip, ones := ParseIPv4(value).value, 32;
      assert Decimal(32) == "32";
      assert RenderIP(ip) + "/32" == Render(ip, 32);
      MaskedHost(ip);
    } else {
      var parsed := ParseCIDR(value).value;
      ones := parsed.1;
      ip := MaskIP(parsed.0, CIDRMask(ones));
      BlockBounds(parsed.0, CIDRMask(ones));
    }
  }

  // A public masked network is its own canonical form.
  lemma RenderedIsCanonical(ip: IPv4, ones: nat)
    requires Masked(ip, ones) && IsPublic(ip) && IsPublic(LastIPv4(ip, CIDRMask(ones)))
    ensures Canonical(Render(ip, ones))
  {
    RenderRoundTrip(ip, ones);
    TrimFree(Render(ip, ones));
  }

  lemma CanonicalIdempotent(raw: string)
    requires CanonicalNetwork(raw).Some?
    ensures Canonical(CanonicalNetwork(raw).value)
  {
    var ip, ones := CanonicalShape(raw);
    RenderedIsCanonical(ip, ones);
  }

  lemma HostSuffix(front: string)
    ensures IsHost(front + "/32")
  {
    assert (front + "/32")[|front|..] == "/32";
  }

  // Text without a slash is a single host.
  lemma BareIsHost(raw: string)
    requires '/' !in TrimSpace(raw) && CanonicalNetwork(raw).Some?
    ensures IsHost(CanonicalNetwork(raw).value)
  {
    HostSuffix(RenderIP(ParseIPv4(TrimSpace(raw)).value));
  }

  // A public address is a canonical host network.
  lemma HostIsCanonical(ip: IPv4)
    requires IsPublic(ip)
    ensures Canonical(Render(ip, 32)) && IsHost(Render(ip, 32))
  {
    hide RenderIP, IsPublic, CanonicalNetwork, CIDRMask, MaskIP, LastIPv4;
    MaskedHost(ip);
    RenderedIsCanonical(ip, 32);
    assert Decimal(32) == "32";
    HostSuffix(RenderIP(ip));
    assert Render(ip, 32) == RenderIP(ip) + "/32";
  }

  // Canonical text holds no white space, so it survives line and field splitting.
  lemma CanonicalText(s: string)
    requires Canonical(s)
    ensures s != "" && Free(s, SPACES)
  {
    var ip, ones := CanonicalShape(s);
    RenderRoundTrip(ip, ones);
  }

  lemma PublicByThree(x: IPv4, y: IPv4)
    requires x[..3] == y[..3]
    ensures IsPublic(x) == IsPublic(y)
  {
    assert x[..3][0] == x[0] && x[..3][1] == x[1] && x[..3][2] == x[2];
    assert y[..3][0] == y[0] && y[..3][1] == y[1] && y[..3][2] == y[2];
  }

  // Testing the first and the last address decides the whole block.
  lemma AcceptedIffAllPublic(raw: string, ip: IPv4, ones: nat)
    requires '/' in TrimSpace(raw) && ParseCIDR(TrimSpace(raw)) == Some((ip, ones))
    requires ones >= MINIMUM_PREFIX_BITS
    ensures CanonicalNetwork(raw).Some? <==> (forall x: IPv4 | InBlock(x, ip, CIDRMask(ones)) :: IsPublic(x))
  {
    var mask := CIDRMask(ones);
    var network := MaskIP(ip, mask);
    BlockBounds(ip, mask);
    BlockBounds(network, mask);
    assert InBlock(network, ip, mask) && InBlock(LastIPv4(network, mask), ip, mask);
    forall x: IPv4 | InBlock(x, ip, mask) ensures IsPublic(x) == IsPublic(network) {
      NarrowBlock(x, network, ones);
      PublicByThree(x, network);
    }
  }

  // Two canonical texts are equal exactly when they cover the same addresses.
  lemma CanonicalIsFaithful(s: string, t: string)
    requires Canonical(s) && Canonical(t)
    ensures s == t <==> (forall x: IPv4 :: Covers(s, x) <==> Covers(t, x))
  {
    var ip, ones := CanonicalShape(s);
    var jp, twos := CanonicalShape(t);
    RenderRoundTrip(ip, ones);
    RenderRoundTrip(jp, twos);
    if forall x: IPv4 :: Covers(s, x) <==> Covers(t, x) {
      BlockBounds(ip, CIDRMask(ones));
      BlockBounds(jp, CIDRMask(twos));
      assert Covers(s, ip) && Covers(t, jp);
      assert Covers(s, LastIPv4(ip, CIDRMask(ones))) && Covers(t, LastIPv4(jp, CIDRMask(twos)));
      SameBounds(ip, ones, jp, twos);
    }
  }

  lemma SameBounds(ip: IPv4, ones: nat, jp: IPv4, twos: nat)
    requires Masked(ip, ones) && Masked(jp, twos)
    requires InBlock(jp, ip, CIDRMask(ones)) && InBlock(ip, jp, CIDRMask(twos))
    requires InBlock(LastIPv4(jp, CIDRMask(twos)), ip, CIDRMask(ones))
    requires InBlock(LastIPv4(ip, CIDRMask(ones)), jp, CIDRMask(twos))
    ensures ip == jp && ones == twos
  {
    var m, n := CIDRMask(ones), CIDRMask(twos);
    BlockBounds(ip, m);
    BlockBounds(jp, n);
    Antisymmetric(ip, jp);
    Antisymmetric(LastIPv4(ip, m), LastIPv4(jp, n));
    SameLastOctet(ip, m, n);
    NarrowMask(ones);
    NarrowMask(twos);
    MaskBitsInjective(ones - 24, twos - 24);
  }

  lemma SameLastOctet(ip: IPv4, m: IPv4, n: IPv4)
    requires MaskIP(ip, m) == ip == MaskIP(ip, n) && LastIPv4(ip, m) == LastIPv4(ip, n)
    ensures m[3] == n[3]
  {
    hide MaskIP, LastIPv4;
    OctetOf(ip, m, 3);
    OctetOf(ip, n, 3);
    SameMaskOctet(ip[3], m[3], n[3]);
  }

  lemma OctetOf(ip: IPv4, m: IPv4, i: nat)
    requires i < 4
    ensures MaskIP(ip, m)[i] == ip[i] & m[i]
    ensures LastIPv4(ip, m)[i] == ip[i] | !m[i]
  {
  }

  lemma Antisymmetric(x: IPv4, y: IPv4)
    requires AtMost(x, y) && AtMost(y, x)
    ensures x == y
  {
    assert forall i | 0 <= i < 4 :: x[i] == y[i];
  }

  lemma SameMaskOctet(o: Octet, m: Octet, n: Octet)
    requires o & m == o && o & n == o && o | !m == o | !n
    ensures m == n
  {
  }

  lemma {:induction false} MaskBitsInjective(j: nat, k: nat)
    requires j <= 8 && k <= 8 && MaskBits(j) == MaskBits(k)
    ensures j == k
  {
    MaskBitsNest(0, j);
    if j == 0 || k == 0 {
    } else {
      MaskBitsEven(j - 1);
      MaskBitsEven(k - 1);
      ShiftInjective(MaskBits(j - 1), MaskBits(k - 1));
      MaskBitsInjective(j - 1, k - 1);
    }
  }

  lemma {:induction false} MaskBitsEven(k: nat)
    requires k < 8
    ensures MaskBits(k) & (0xff >> k) == 0
  {
    if k == 0 {
    } else {
      MaskBitsEven(k - 1);
    }
  }

  lemma ShiftInjective(m: Octet, n: Octet)
    requires (m >> 1) | 0x80 == (n >> 1) | 0x80 && m & 1 == 0 && n & 1 == 0
    ensures m == n
  {
  }

  // Any two blocks are nested or disjoint.
  lemma NestedOrDisjoint(s: string, t: string, ip: IPv4, ones: nat, jp: IPv4, twos: nat)
    requires ParseCIDR(s) == Some((ip, ones)) && ParseCIDR(t) == Some((jp, twos)) && ones <= twos
    ensures (forall x: IPv4 :: Covers(t, x) ==> Covers(s, x)) || (forall x: IPv4 :: !(Covers(t, x) && Covers(s, x)))
  {
    var m, n := CIDRMask(ones), CIDRMask(twos);
    if y: IPv4 :| Covers(t, y) && Covers(s, y) {
      forall x: IPv4 | Covers(t, x) ensures Covers(s, x) {
        SameMask(x, y, m);
        SameMask(x, y, n);
        forall i | 0 <= i < 4 ensures x[i] & m[i] == y[i] & m[i] {
          MaskBitsNest(OctetBits(ones, i), OctetBits(twos, i));
          CoarserOctet(x[i], y[i], m[i], n[i]);
        }
      }
    }
  }

  // The blocks of section 2.2.2 of RFC 6890 that are not globally reachable,
  // as base and mask.
  datatype Range = Range(a: Octet, b: Octet, c: Octet, d: Octet, m: Octet, n: Octet, o: Octet, p: Octet)

  function NotGlobal(k: nat): Range
    requires k < 15
  {
    match k
    case 0 => Range(0, 0, 0, 0, 255, 0, 0, 0)
    case 1 => Range(10, 0, 0, 0, 255, 0, 0, 0)
    case 2 => Range(100, 64, 0, 0, 255, 192, 0, 0)
    case 3 => Range(127, 0, 0, 0, 255, 0, 0, 0)
    case 4 => Range(169, 254, 0, 0, 255, 255, 0, 0)
    case 5 => Range(172, 16, 0, 0, 255, 240, 0, 0)
    case 6 => Range(192, 0, 0, 0, 255, 255, 255, 0)
    case 7 => Range(192, 0, 0, 0, 255, 255, 255, 248)
    case 8 => Range(192, 0, 2, 0, 255, 255, 255, 0)
    case 9 => Range(192, 168, 0, 0, 255, 255, 0, 0)
    case 10 => Range(198, 18, 0, 0, 255, 254, 0, 0)
    case 11 => Range(198, 51, 100, 0, 255, 255, 255, 0)
    case 12 => Range(203, 0, 113, 0, 255, 255, 255, 0)
    case 13 => Range(240, 0, 0, 0, 240, 0, 0, 0)
    case 14 => Range(255, 255, 255, 255, 255, 255, 255, 255)
  }

  predicate InNotGlobal(x: IPv4, k: nat)
    requires k < 15
  {
    var r := NotGlobal(k);
    InBlock(x, [r.a, r.b, r.c, r.d], [r.m, r.n, r.o, r.p])
  }

  lemma PublicBits(a: Octet, b: Octet, c: Octet)
    requires PublicOctets(a, b, c)
    ensures a & 255 != 0 && a & 255 != 10 && a & 255 != 127 && a & 240 != 240
    ensures !(a & 255 == 100 && b & 192 == 64) && !(a & 255 == 169 && b & 255 == 254)
    ensures !(a & 255 == 172 && b & 240 == 16) && !(a & 255 == 192 && (b & 255 == 0 || b & 255 == 168))
    ensures !(a & 255 == 198 && b & 254 == 18) && !(a & 255 == 198 && b & 255 == 51 && c & 255 == 100)
    ensures !(a & 255 == 203 && b & 255 == 0 && c & 255 == 113) && a & 255 != 255
  {
  }

  lemma FirstOctets(x: IPv4, b: IPv4, mask: IPv4)
    requires InBlock(x, b, mask)
    ensures x[0] & mask[0] == b[0] & mask[0] && x[1] & mask[1] == b[1] & mask[1] && x[2] & mask[2] == b[2] & mask[2]
  {
    SameMask(x, b, mask);
  }

  predicate Same(x: Octet, y: Octet, m: Octet) {
    x & m == y & m
  }

  predicate Meets(p: Octet, q: Octet, c: Octet, r: Range) {
    Same(p, r.a, r.m) && Same(q, r.b, r.n) && Same(c, r.c, r.o)
  }

  lemma PublicMisses(p: Octet, q: Octet, c: Octet, k: nat)
    requires k < 15 && PublicOctets(p, q, c)
    ensures !Meets(p, q, c, NotGlobal(k))
  {
    if k < 5 {
      MissesLow(p, q, c, k);
    } else if k < 10 {
      MissesMiddle(p, q, c, k);
    } else {
      MissesHigh(p, q, c, k);
    }
  }

  lemma MissesLow(p: Octet, q: Octet, c: Octet, k: nat)
    requires k < 5 && PublicOctets(p, q, c)
    ensures !Meets(p, q, c, NotGlobal(k))
  {
    PublicBits(p, q, c);
  }

  lemma MissesMiddle(p: Octet, q: Octet, c: Octet, k: nat)
    requires 5 <= k < 10 && PublicOctets(p, q, c)
    ensures !Meets(p, q, c, NotGlobal(k))
  {
    PublicBits(p, q, c);
  }

  lemma MissesHigh(p: Octet, q: Octet, c: Octet, k: nat)
    requires 10 <= k < 15 && PublicOctets(p, q, c)
    ensures !Meets(p, q, c, NotGlobal(k))
  {
    PublicBits(p, q, c);
  }

  lemma PublicIsGlobal(x: IPv4, k: nat)
    requires IsPublic(x) && k < 15
    ensures !InNotGlobal(x, k)
  {
    var r := NotGlobal(k);
    PublicMisses(x[0], x[1], x[2], k);
    if InNotGlobal(x, k) {
      FirstOctets(x, [r.a, r.b, r.c, r.d], [r.m, r.n, r.o, r.p]);
      assert false;
    }
  }

  // No accepted network meets any of them.
  lemma AcceptedIsGlobal(s: string, x: IPv4, k: nat)
    requires Canonical(s) && Covers(s, x) && k < 15
    ensures !InNotGlobal(x, k)
  {
    var ip, ones := CanonicalShape(s);
    RenderRoundTrip(ip, ones);
    NarrowBlock(x, ip, ones);
    PublicByThree(x, ip);
    PublicIsGlobal(x, k);
  }
}
