// internal/pbr/networks.go: which texts CanonicalNetwork accepts and what its
// result covers, in terms of dotted decimals, address bits and reserved blocks.
module AddressSpace {
  import opened Strings
  import opened Networks

  // ---- text ----

  lemma DigitBack(c: char)
    requires '0' <= c <= '9'
    ensures Digit(DigitValue(c)) == c && DigitValue(c) < 10 && (c != '0' ==> DigitValue(c) > 0)
  {
  }

  lemma DecimalOf(a: nat, b: nat, c: nat)
    requires a < 10 && b < 10 && c < 10
    ensures b > 0 ==> Decimal(10 * b + c) == [Digit(b), Digit(c)]
    ensures a > 0 ==> Decimal(100 * a + 10 * b + c) == [Digit(a), Digit(b), Digit(c)]
  {
    hide Digit;
    var n := 100 * a + 10 * b + c;
    assert n / 100 == a && n / 10 % 10 == b && n % 10 == c;
  }

  lemma ValueOf(s: string)
    requires s != "" && IsDigits(s)
    ensures DecimalValue(s) == 10 * DecimalValue(s[..|s| - 1]) + DigitValue(s[|s| - 1]) && DecimalValue("") == 0
  {
  }

  lemma ValueOfThree(s: string)
    requires 1 <= |s| <= 3 && IsDigits(s)
    ensures |s| == 1 ==> DecimalValue(s) == DigitValue(s[0])
    ensures |s| == 2 ==> DecimalValue(s) == 10 * DigitValue(s[0]) + DigitValue(s[1])
    ensures |s| == 3 ==> DecimalValue(s) == 100 * DigitValue(s[0]) + 10 * DigitValue(s[1]) + DigitValue(s[2])
  {
    hide DecimalValue, DigitValue;
    ValueOf(s);
    ValueOf(s[..1]);
    assert s[..1][..0] == "" && s[..0] == "";
    if |s| == 3 {
      ValueOf(s[..2]);
      assert s[..2][..1] == s[..1];
    }
  }

  // One to three digits that do not start with a needless zero are the decimal
  // text of their value.
  lemma DigitsBack(s: string)
    requires 1 <= |s| <= 3 && IsDigits(s) && (|s| > 1 ==> s[0] != '0')
    ensures DecimalValue(s) < 1000 && Decimal(DecimalValue(s)) == s
  {
    hide DecimalValue, Decimal, DigitValue;
    ValueOfThree(s);
    if |s| == 1 {
      OneDigit(s);
    } else if |s| == 2 {
      TwoDigits(s);
    } else {
      ThreeDigits(s);
    }
  }

  lemma OneDigit(s: string)
    requires |s| == 1 && IsDigits(s) && DecimalValue(s) == DigitValue(s[0])
    ensures DecimalValue(s) < 10 && Decimal(DecimalValue(s)) == s
  {
    hide DecimalValue, Digit, DigitValue;
    DigitBack(s[0]);
    assert s == [s[0]];
  }

  lemma TwoDigits(s: string)
    requires |s| == 2 && IsDigits(s) && s[0] != '0' && DecimalValue(s) == 10 * DigitValue(s[0]) + DigitValue(s[1])
    ensures DecimalValue(s) < 100 && Decimal(DecimalValue(s)) == s
  {
    hide DecimalValue, Decimal, Digit, DigitValue;
    DigitBack(s[0]);
    DigitBack(s[1]);
    assert s == [s[0], s[1]];
    DecimalOf(0, DigitValue(s[0]), DigitValue(s[1]));
  }

  lemma ThreeDigits(s: string)
    requires |s| == 3 && IsDigits(s) && s[0] != '0'
    requires DecimalValue(s) == 100 * DigitValue(s[0]) + 10 * DigitValue(s[1]) + DigitValue(s[2])
    ensures DecimalValue(s) < 1000 && Decimal(DecimalValue(s)) == s
  {
    hide DecimalValue, Decimal, Digit, DigitValue;
    DigitBack(s[0]);
    DigitBack(s[1]);
    DigitBack(s[2]);
    assert s == [s[0], s[1], s[2]];
    DecimalOf(DigitValue(s[0]), DigitValue(s[1]), DigitValue(s[2]));
  }

  lemma BackToNat(n: nat)
    requires n < 256
    ensures (n as Octet) as nat == n
  {
    var o := n as Octet;
    if n < 128 {
      if n < 64 {
        if n < 32 {
          if n < 16 {
          } else {
          }
        } else {
        }
      } else {
      }
    } else {
    }
  }

  lemma OctetTextExactly(s: string, o: Octet)
    ensures ParseOctet(s) == Some(o) <==> s == Decimal(o as nat)
  {
    hide DecimalValue, Decimal, IsDigits;
    OctetRoundTrip(o);
    if ParseOctet(s) == Some(o) {
      DigitsBack(s);
      BackToNat(DecimalValue(s));
    }
  }

  // An address is read from its dotted decimal text and from no other.
  lemma ParseIPExactly(s: string, ip: IPv4)
    ensures ParseIPv4(s) == Some(ip) <==> s == RenderIP(ip)
  {
    hide RenderIP, ParseOctet, Decimal;
    RenderIPRoundTrip(ip);
    if ParseIPv4(s) == Some(ip) {
      var parts := SplitBy(s, {'.'});
      forall i | 0 <= i < 4 ensures parts[i] == Decimal(ip[i] as nat) {
        OctetTextExactly(parts[i], ip[i]);
      }
      assert parts == OctetTexts(ip);
      RenderIPJoins(ip);
      JoinSplit(s, '.');
    }
  }

  // The text of an address, a slash and a decimal prefix length.
  ghost predicate CIDRText(s: string, ip: IPv4, ones: nat, digits: string) {
    && digits != "" && IsDigits(digits) && DecimalValue(digits) == ones <= 32
    && s == RenderIP(ip) + "/" + digits
  }

  lemma CIDRTextParses(s: string, ip: IPv4, ones: nat, digits: string)
    requires CIDRText(s, ip, ones, digits)
    ensures ParseCIDR(s) == Some((ip, ones)) && '/' in s
  {
    hide RenderIP, ParseIPv4, DecimalValue;
    RenderIPRoundTrip(ip);
    DigitsFree(digits);
    var parts := [RenderIP(ip), digits];
    forall p | p in parts ensures Free(p, {'/'}) {}
    SplitJoin(parts, '/', {'/'});
    assert Join(parts[1..], '/') == digits;
    assert s == Join(parts, '/') && s[|RenderIP(ip)|] == '/';
  }

  lemma ParsedCIDRText(s: string) returns (digits: string)
    requires ParseCIDR(s).Some?
    ensures CIDRText(s, ParseCIDR(s).value.0, ParseCIDR(s).value.1, digits)
  {
    hide RenderIP, ParseIPv4, DecimalValue;
    var parts := SplitBy(s, {'/'});
    digits := parts[1];
    ParseIPExactly(parts[0], ParseCIDR(s).value.0);
    JoinSplit(s, '/');
    assert parts[1..] == [digits] && Join(parts[1..], '/') == digits;
    assert "/" == ['/'];
  }

  // ---- bits ----

  // Bit j of an octet or an address, counted from the most significant.
  predicate OctetBit(o: Octet, j: nat)
    requires j < 8
  {
    o & (0x80 >> j) != 0
  }

  predicate Bit(x: IPv4, j: nat)
    requires j < 32
  {
    OctetBit(x[j / 8], j % 8)
  }

  ghost predicate Agree(x: IPv4, y: IPv4, ones: nat)
    requires ones <= 32
  {
    forall j | 0 <= j < ones :: Bit(x, j) == Bit(y, j)
  }

  lemma MaskBitsAre()
    ensures MaskBits(0) == 0 && MaskBits(1) == 0x80 && MaskBits(2) == 0xc0 && MaskBits(3) == 0xe0 && MaskBits(4) == 0xf0
    ensures MaskBits(5) == 0xf8 && MaskBits(6) == 0xfc && MaskBits(7) == 0xfe && MaskBits(8) == 0xff
  {
    assert MaskBits(2) == 0xc0;
    assert MaskBits(3) == 0xe0;
    assert MaskBits(4) == 0xf0;
    assert MaskBits(5) == 0xf8;
    assert MaskBits(6) == 0xfc;
    assert MaskBits(7) == 0xfe;
  }

  lemma MaskBitsStep(k: nat)
    requires k < 8
    ensures MaskBits(k + 1) == MaskBits(k) | (0x80 >> k)
  {
    MaskBitsAre();
    hide MaskBits;
    assert k == 0 || k == 1 || k == 2 || k == 3 || k == 4 || k == 5 || k == 6 || k == 7;
  }

  lemma OneBit(x: Octet, y: Octet, k: nat)
    requires k < 8
    ensures x & (0x80 >> k) == y & (0x80 >> k) <==> OctetBit(x, k) == OctetBit(y, k)
  {
    assert k == 0 || k == 1 || k == 2 || k == 3 || k == 4 || k == 5 || k == 6 || k == 7;
  }

  lemma JointMaskGives(x: Octet, y: Octet, m: Octet, n: Octet)
    requires x & (m | n) == y & (m | n)
    ensures x & m == y & m && x & n == y & n
  {
  }

  lemma JointMaskTakes(x: Octet, y: Octet, m: Octet, n: Octet)
    requires x & m == y & m && x & n == y & n
    ensures x & (m | n) == y & (m | n)
  {
  }

  lemma SameJoint(x: Octet, y: Octet, m: Octet, n: Octet)
    ensures Same(x, y, m | n) <==> Same(x, y, m) && Same(x, y, n)
  {
    if Same(x, y, m | n) {
      JointMaskGives(x, y, m, n);
    } else if Same(x, y, m) && Same(x, y, n) {
      JointMaskTakes(x, y, m, n);
    }
  }

  lemma SameBit(x: Octet, y: Octet, k: nat)
    requires k < 8
    ensures Same(x, y, 0x80 >> k) <==> OctetBit(x, k) == OctetBit(y, k)
  {
    OneBit(x, y, k);
  }

  lemma SameStep(x: Octet, y: Octet, k: nat)
    requires k < 8
    ensures Same(x, y, MaskBits(k + 1)) <==> Same(x, y, MaskBits(k)) && OctetBit(x, k) == OctetBit(y, k)
  {
    hide MaskBits, OctetBit, Same;
    MaskBitsStep(k);
    SameJoint(x, y, MaskBits(k), 0x80 >> k);
    SameBit(x, y, k);
  }

  ghost predicate BitsAgree(x: Octet, y: Octet, k: nat)
    requires k <= 8
  {
    forall j | 0 <= j < k :: OctetBit(x, j) == OctetBit(y, j)
  }

  lemma BitsAgreeStep(x: Octet, y: Octet, k: nat)
    requires k < 8
    ensures BitsAgree(x, y, k + 1) <==> BitsAgree(x, y, k) && OctetBit(x, k) == OctetBit(y, k)
  {
    hide OctetBit;
  }

  lemma {:induction false} OctetAgree(x: Octet, y: Octet, k: nat)
    requires k <= 8
    ensures Same(x, y, MaskBits(k)) <==> BitsAgree(x, y, k)
  {
    hide OctetBit, Same;
    if k == 0 {
      SameZero(x, y);
    } else {
      OctetAgree(x, y, k - 1);
      SameStep(x, y, k - 1);
      BitsAgreeStep(x, y, k - 1);
    }
  }

  // A block is the addresses that agree with its own in the first ones bits.
  lemma BlockExactly(x: IPv4, ip: IPv4, ones: nat)
    requires ones <= 32
    ensures InBlock(x, ip, CIDRMask(ones)) <==> Agree(x, ip, ones)
  {
    hide MaskBits, OctetBit, MaskIP;
    var mask := CIDRMask(ones);
    SameMask(x, ip, mask);
    forall i | 0 <= i < 4
      ensures Same(x[i], ip[i], mask[i]) <==> BitsAgree(x[i], ip[i], OctetBits(ones, i))
    {
      OctetAgree(x[i], ip[i], OctetBits(ones, i));
    }
    if Agree(x, ip, ones) {
      forall i, j | 0 <= i < 4 && 0 <= j < OctetBits(ones, i) ensures OctetBit(x[i], j) == OctetBit(ip[i], j) {
        assert Bit(x, 8 * i + j) == Bit(ip, 8 * i + j);
        assert (8 * i + j) / 8 == i && (8 * i + j) % 8 == j;
      }
    }
    if InBlock(x, ip, mask) {
      forall j | 0 <= j < ones ensures Bit(x, j) == Bit(ip, j) {
        assert j % 8 < OctetBits(ones, j / 8);
      }
    }
  }

  // ---- reserved blocks ----

  // The address space isPublicIPv4 refuses, as base and mask.
  function NotPublic(k: nat): Range
    requires k < 12
  {
    match k
    case 0 => Range(0, 0, 0, 0, 255, 0, 0, 0)
    case 1 => Range(10, 0, 0, 0, 255, 0, 0, 0)
    case 2 => Range(127, 0, 0, 0, 255, 0, 0, 0)
    case 3 => Range(224, 0, 0, 0, 224, 0, 0, 0)
    case 4 => Range(100, 64, 0, 0, 255, 192, 0, 0)
    case 5 => Range(169, 254, 0, 0, 255, 255, 0, 0)
    case 6 => Range(172, 16, 0, 0, 255, 240, 0, 0)
    case 7 => Range(192, 0, 0, 0, 255, 255, 0, 0)
    case 8 => Range(192, 168, 0, 0, 255, 255, 0, 0)
    case 9 => Range(198, 18, 0, 0, 255, 254, 0, 0)
    case 10 => Range(198, 51, 100, 0, 255, 255, 255, 0)
    case 11 => Range(203, 0, 113, 0, 255, 255, 255, 0)
  }

  predicate InNotPublic(x: IPv4, k: nat)
    requires k < 12
  {
    var r := NotPublic(k);
    InBlock(x, [r.a, r.b, r.c, r.d], [r.m, r.n, r.o, r.p])
  }

  ghost predicate Outside(x: IPv4) {
    forall k | 0 <= k < 12 :: !InNotPublic(x, k)
  }

  lemma ThreeOctets(k: nat)
    requires k < 12
    ensures NotPublic(k).d == 0 && NotPublic(k).p == 0
  {
  }

  lemma SameBlock(x: IPv4, y: IPv4, mask: IPv4)
    ensures InBlock(x, y, mask) <==> forall i | 0 <= i < 4 :: Same(x[i], y[i], mask[i])
  {
    SameMask(x, y, mask);
  }

  lemma SameZero(x: Octet, y: Octet)
    ensures Same(x, y, 0)
  {
  }

  lemma RangeByOctets(x: IPv4, k: nat)
    requires k < 12
    ensures InNotPublic(x, k) <==> Meets(x[0], x[1], x[2], NotPublic(k))
  {
    hide NotPublic, Same, InBlock;
    var r := NotPublic(k);
    var base, mask: IPv4 := [r.a, r.b, r.c, r.d], [r.m, r.n, r.o, r.p];
    ThreeOctets(k);
    SameZero(x[3], r.d);
    SameBlock(x, base, mask);
    assert base[0] == r.a && base[1] == r.b && base[2] == r.c && base[3] == r.d;
    assert mask[0] == r.m && mask[1] == r.n && mask[2] == r.o && mask[3] == r.p;
  }

  lemma NoMask(o: Octet)
    ensures o & 0 == 0
  {
  }

  // The block each refusal of isPublicIPv4 is about.
  lemma RefusedBy(a: Octet, b: Octet, c: Octet) returns (k: nat)
    requires !PublicOctets(a, b, c)
    ensures k < 12 && Meets(a, b, c, NotPublic(k))
  {
    NoMask(b);
    NoMask(c);
    k := if a == 0 then 0
         else if a == 10 then 1
         else if a == 127 then 2
         else if a >= 224 then 3
         else if a == 100 then 4
         else if a == 169 then 5
         else if a == 172 then 6
         else if a == 192 && b == 0 then 7
         else if a == 192 then 8
         else if a == 198 && b == 51 then 10
         else if a == 198 then 9
         else 11;
  }

  lemma MissesFirst(a: Octet, b: Octet, c: Octet, k: nat)
    requires k < 4 && PublicOctets(a, b, c)
    ensures !Meets(a, b, c, NotPublic(k))
  {
  }

  lemma MissesSecond(a: Octet, b: Octet, c: Octet, k: nat)
    requires 4 <= k < 8 && PublicOctets(a, b, c)
    ensures !Meets(a, b, c, NotPublic(k))
  {
  }

  lemma MissesThird(a: Octet, b: Octet, c: Octet, k: nat)
    requires 8 <= k < 12 && PublicOctets(a, b, c)
    ensures !Meets(a, b, c, NotPublic(k))
  {
  }

  // An address is public if and only if it lies in none of these blocks.
  lemma PublicExactly(x: IPv4)
    ensures IsPublic(x) <==> Outside(x)
  {
    hide PublicOctets, Meets, NotPublic, InNotPublic;
    if IsPublic(x) {
      forall k | 0 <= k < 12 ensures !InNotPublic(x, k) {
        RangeByOctets(x, k);
        if k < 4 {
          MissesFirst(x[0], x[1], x[2], k);
        } else if k < 8 {
          MissesSecond(x[0], x[1], x[2], k);
        } else {
          MissesThird(x[0], x[1], x[2], k);
        }
      }
    } else {
      var k := RefusedBy(x[0], x[1], x[2]);
      RangeByOctets(x, k);
    }
  }

  // ---- what is accepted ----

  ghost predicate AddressText(s: string, ip: IPv4) {
    s == RenderIP(ip)
  }

  // CanonicalNetwork accepts exactly the dotted text of an address outside the
  // refused blocks, and the text of a block of 24 or more bits that meets none
  // of them.
  lemma AcceptedExactly(raw: string)
    ensures CanonicalNetwork(raw).Some? <==>
      || (exists ip :: AddressText(TrimSpace(raw), ip) && Outside(ip))
      || (exists ip, ones, digits :: 24 <= ones <= 32 && CIDRText(TrimSpace(raw), ip, ones, digits) && forall x | Agree(x, ip, ones) :: Outside(x))
  {
    hide RenderIP, ParseIPv4, ParseCIDR, IsPublic, Outside, Agree, CIDRText, TrimSpace;
    if CanonicalNetwork(raw).Some? {
      Accepted(raw);
    }
    if ip :| AddressText(TrimSpace(raw), ip) && Outside(ip) {
      AddressAccepted(raw, ip);
    }
    if ip, ones, digits :| 24 <= ones <= 32 && CIDRText(TrimSpace(raw), ip, ones, digits) && forall x | Agree(x, ip, ones) :: Outside(x) {
      BlockAccepted(raw, ip, ones, digits);
    }
  }

  lemma AddressAccepted(raw: string, ip: IPv4)
    requires AddressText(TrimSpace(raw), ip)
    ensures CanonicalNetwork(raw) == if IsPublic(ip) then Some(RenderIP(ip) + "/32") else None
    ensures CanonicalNetwork(raw).Some? <==> Outside(ip)
  {
    hide IsPublic, RenderIP, ParseIPv4, Outside;
    PublicExactly(ip);
    RenderIPRoundTrip(ip);
    NotEmptyText(ip);
  }

  lemma NotEmptyText(ip: IPv4)
    ensures RenderIP(ip) != ""
  {
  }

  lemma BlockAccepted(raw: string, ip: IPv4, ones: nat, digits: string)
    requires CIDRText(TrimSpace(raw), ip, ones, digits)
    ensures CanonicalNetwork(raw).Some? <==> ones >= 24 && forall x | Agree(x, ip, ones) :: Outside(x)
  {
    hide IsPublic, RenderIP, ParseIPv4, ParseCIDR, Outside, Agree, InBlock, TrimSpace;
    CIDRTextParses(TrimSpace(raw), ip, ones, digits);
    forall x: IPv4 ensures InBlock(x, ip, CIDRMask(ones)) == Agree(x, ip, ones) && IsPublic(x) == Outside(x) {
      BlockExactly(x, ip, ones);
      PublicExactly(x);
    }
    if ones >= MINIMUM_PREFIX_BITS {
      AcceptedIffAllPublic(raw, ip, ones);
    }
  }

  lemma Accepted(raw: string)
    requires CanonicalNetwork(raw).Some?
    ensures
      || (exists ip :: AddressText(TrimSpace(raw), ip) && Outside(ip))
      || (exists ip, ones, digits :: 24 <= ones <= 32 && CIDRText(TrimSpace(raw), ip, ones, digits) && forall x | Agree(x, ip, ones) :: Outside(x))
  {
    hide IsPublic, RenderIP, ParseIPv4, ParseCIDR, Outside, Agree, TrimSpace, CIDRText;
    var value := TrimSpace(raw);
    if '/' !in value {
      var ip := ParseIPv4(value).value;
      ParseIPExactly(value, ip);
      AddressAccepted(raw, ip);
    } else {
      var (ip, ones) := ParseCIDR(value).value;
      var digits := ParsedCIDRText(value);
      BlockAccepted(raw, ip, ones, digits);
    }
  }

  // What it returns covers exactly the addresses of the text.
  lemma CanonicalCovers(raw: string, ip: IPv4, ones: nat, digits: string, x: IPv4)
    requires CIDRText(TrimSpace(raw), ip, ones, digits) && CanonicalNetwork(raw).Some?
    ensures Covers(CanonicalNetwork(raw).value, x) <==> Agree(x, ip, ones)
  {
    hide IsPublic, RenderIP, ParseIPv4, ParseCIDR, Agree, TrimSpace;
    CIDRTextParses(TrimSpace(raw), ip, ones, digits);
    var mask := CIDRMask(ones);
    RenderRoundTrip(MaskIP(ip, mask), ones);
    BlockBounds(ip, mask);
    BlockExactly(x, ip, ones);
  }

  lemma AddressCovers(raw: string, ip: IPv4, x: IPv4)
    requires AddressText(TrimSpace(raw), ip) && CanonicalNetwork(raw).Some?
    ensures Covers(CanonicalNetwork(raw).value, x) <==> x == ip
  {
    hide IsPublic, RenderIP, ParseIPv4, ParseCIDR, TrimSpace, CanonicalNetwork;
    AddressAccepted(raw, ip);
    assert Decimal(32) == "32";
    assert RenderIP(ip) + "/32" == Render(ip, 32);
    RenderRoundTrip(ip, 32);
    HostBlock(x, ip);
  }

  lemma HostBlock(x: IPv4, ip: IPv4)
    ensures InBlock(x, ip, CIDRMask(32)) <==> x == ip
  {
    MaskedHost(ip);
    MaskedHost(x);
  }

  ghost predicate CoversOnly(s: string, ip: IPv4) {
    forall x :: Covers(s, x) <==> x == ip
  }

  // A canonical text is a host exactly when it covers a single address.
  lemma HostExactly(s: string)
    requires Canonical(s)
    ensures IsHost(s) <==> exists ip :: CoversOnly(s, ip)
  {
    hide RenderIP, IsPublic, CanonicalNetwork, CIDRMask, LastIPv4, MaskBits;
    var ip, ones := CanonicalShape(s);
    RenderRoundTrip(ip, ones);
    SuffixIs32(ip, ones);
    if ones == 32 {
      forall x: IPv4 ensures Covers(s, x) <==> x == ip {
        HostBlock(x, ip);
      }
      assert CoversOnly(s, ip);
    } else {
      TwoCovered(ip, ones);
      var other: IPv4 := ip[3 := ip[3] | 1];
      assert Covers(s, ip) && Covers(s, other) && ip != other;
    }
  }

  lemma TwoDigitText(n: nat)
    requires 10 <= n < 100
    ensures |Decimal(n)| == 2 && Decimal(32) == "32"
  {
  }

  lemma SuffixIs32(ip: IPv4, ones: nat)
    requires 24 <= ones <= 32
    ensures IsHost(Render(ip, ones)) <==> ones == 32
  {
    hide RenderIP, Decimal, DecimalValue;
    TwoDigitText(ones);
    DecimalRoundTrip(ones);
    DecimalRoundTrip(32);
    var s := Render(ip, ones);
    var tail := s[|s| - 3..];
    assert s == RenderIP(ip) + ("/" + Decimal(ones)) && |"/" + Decimal(ones)| == 3;
    assert tail == "/" + Decimal(ones);
    assert tail[1..] == Decimal(ones) && "/32"[1..] == "32" && "/" + "32" == "/32";
  }

  lemma TwoCovered(ip: IPv4, ones: nat)
    requires 24 <= ones < 32 && Masked(ip, ones)
    ensures InBlock(ip, ip, CIDRMask(ones)) && InBlock(ip[3 := ip[3] | 1], ip, CIDRMask(ones))
    ensures ip[3 := ip[3] | 1] != ip
  {
    hide CIDRMask, MaskIP, InBlock;
    NarrowMask(ones);
    EvenMask(ones - 24);
    OctetOf(ip, CIDRMask(ones), 3);
    LowBit(ip[3], CIDRMask(ones)[3]);
    OtherInBlock(ip, ip[3], CIDRMask(ones));
    OtherInBlock(ip, ip[3] | 1, CIDRMask(ones));
    assert ip[3 := ip[3] | 1][3] != ip[3];
  }

  lemma OtherInBlock(ip: IPv4, last: Octet, mask: IPv4)
    requires last & mask[3] == ip[3] & mask[3]
    ensures InBlock(ip[3 := last], ip, mask) && InBlock(ip, ip, mask)
  {
    hide MaskIP;
    SameMask(ip[3 := last], ip, mask);
  }

  lemma EvenMask(k: nat)
    requires k < 8
    ensures MaskBits(k) & 1 == 0
  {
    MaskBitsAre();
    hide MaskBits;
    assert k == 0 || k == 1 || k == 2 || k == 3 || k == 4 || k == 5 || k == 6 || k == 7;
  }

  lemma LowBit(o: Octet, m: Octet)
    requires o & m == o && m & 1 == 0
    ensures o & 1 == 0 && (o | 1) & m == o & m && o | 1 != o
  {
  }
}
