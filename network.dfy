/** The part of Python's `ipaddress.ip_network(text)` (strict mode) that
    `Service` relies on, for IPv4: parse `address[/mask]`, reject host bits
    outside the mask, and print the network as `address/prefixlen`. The mask
    may be a prefix length, a netmask or a hostmask in dotted-quad form. */
module Network {
  import opened Wrappers
  import opened Text

  /** An IPv4 address as its four octets. */
  datatype Quad = Quad(a: nat, b: nat, c: nat, d: nat)

  predicate ValidQuad(q: Quad)
  {
    q.a < 256 && q.b < 256 && q.c < 256 && q.d < 256
  }

  /** The 32-bit integer of an address, most significant octet first. */
  function QuadValue(q: Quad): nat
  {
    q.a * 16777216 + q.b * 65536 + q.c * 256 + q.d
  }

  /** `(1 << 32) - 1`, the `ALL_ONES` of an IPv4 address. */
  const AllOnes: nat := 4294967295

  function Pow2(n: nat): (r: nat)
    ensures r >= 1
  {
    if n == 0 then 1 else 2 * Pow2(n - 1)
  }

  /** The integer of the netmask with `prefix` leading one bits. */
  function MaskValue(prefix: nat): int
    requires prefix <= 32
  {
    AllOnes + 1 - Pow2(32 - prefix)
  }

  /** An `IPv4Network` as `ipaddress` holds it. */
  datatype IPv4Network = IPv4Network(address: Quad, prefix: nat)

  /** A network address with no host bit set under a prefix of at most 32. */
  predicate ValidNetwork(n: IPv4Network)
  {
    ValidQuad(n.address) && n.prefix <= 32 && QuadValue(n.address) % Pow2(32 - n.prefix) == 0
  }

  // ---------------------------------------------------------------------------
  // Parsing
  // ---------------------------------------------------------------------------

  /** `_parse_octet`: 1 to 3 ASCII digits, no leading zero, at most 255. */
  function ParseOctet(s: string): (r: Option<nat>)
    ensures r.Some? ==> r.value < 256
  {
    if s == [] || !AllDigits(s) || |s| > 3 || (s != "0" && s[0] == '0') then None
    else if DigitsValue(s) > 255 then None
    else Some(DigitsValue(s))
  }

  /** `_ip_int_from_string`: exactly four dot-separated octets. */
  function ParseQuad(s: string): (r: Option<Quad>)
    ensures r.Some? ==> ValidQuad(r.value)
  {
    var parts := Split(s, '.');
    if |parts| != 4 then None
    else
      match (ParseOctet(parts[0]), ParseOctet(parts[1]), ParseOctet(parts[2]), ParseOctet(parts[3]))
      case (Some(a), Some(b), Some(c), Some(d)) => Some(Quad(a, b, c, d))
      case _ => None
  }

  /** `_prefix_from_prefix_string`: ASCII digits whose value is at most 32. */
  function ParsePrefixLength(s: string): (r: Option<nat>)
    ensures r.Some? ==> r.value <= 32
  {
    if s != [] && AllDigits(s) && DigitsValue(s) <= 32 then Some(DigitsValue(s)) else None
  }

  /** `_prefix_from_ip_int` searched from `prefix` up: the prefix whose
      netmask is `v`, if any. */
  function MaskPrefixFrom(v: nat, prefix: nat): (r: Option<nat>)
    requires prefix <= 33
    ensures r.Some? ==> prefix <= r.value <= 32 && v == MaskValue(r.value)
    ensures r.None? ==> forall p :: prefix <= p <= 32 ==> v != MaskValue(p)
    decreases 33 - prefix
  {
    if prefix > 32 then None
    else if v == MaskValue(prefix) then Some(prefix)
    else MaskPrefixFrom(v, prefix + 1)
  }

  /** `_make_netmask` for text: a prefix length, else a netmask, else a hostmask. */
  function ParseMask(s: string): (r: Option<nat>)
    ensures r.Some? ==> r.value <= 32
  {
    match ParsePrefixLength(s)
    case Some(p) => Some(p)
    case None =>
      match ParseQuad(s)
      case None => None
      case Some(q) =>
        var v := QuadValue(q);
        match MaskPrefixFrom(v, 0)
        case Some(p) => Some(p)
        case None => if v <= AllOnes then MaskPrefixFrom(AllOnes - v, 0) else None
  }

  /** `ipaddress.ip_network(text)` in strict mode, IPv4 only: every failure is a
      `ValueError`. */
  function ParseNetwork(s: string): (r: Result<IPv4Network>)
    ensures r.Ok? ==> ValidNetwork(r.value)
    ensures r.Err? ==> r.error == ValueError
  {
    var parts := Split(s, '/');
    if |parts| > 2 then Err(ValueError)
    else
      match ParseQuad(parts[0])
      case None => Err(ValueError)
      case Some(q) =>
        var mask := if |parts| == 1 then Some(32) else ParseMask(parts[1]);
        match mask
        case None => Err(ValueError)
        case Some(p) =>
          if QuadValue(q) % Pow2(32 - p) != 0 then Err(ValueError)  // host bits set
          else Ok(IPv4Network(q, p))
  }

  // ---------------------------------------------------------------------------
  // Printing
  // ---------------------------------------------------------------------------

  /** `str(IPv4Address)`: the octets in decimal, dot-separated. */
  function QuadString(q: Quad): string
  {
    Join([NatToString(q.a), NatToString(q.b), NatToString(q.c), NatToString(q.d)], '.')
  }

  /** `str(IPv4Network)`: `address/prefixlen`. */
  function NetworkString(n: IPv4Network): string
  {
    Join([QuadString(n.address), NatToString(n.prefix)], '/')
  }

  /** `str(ipaddress.ip_network(text))`, the canonical form a client takes. */
  function Canonicalize(s: string): (r: Result<string>)
    ensures r.Err? ==> r.error == ValueError
  {
    match ParseNetwork(s)
    case Ok(n) => Ok(NetworkString(n))
    case Err(e) => Err(e)
  }

  // ---------------------------------------------------------------------------
  // Round trip
  // ---------------------------------------------------------------------------

  lemma OctetRoundTrip(o: nat)
    requires o < 256
    ensures ParseOctet(NatToString(o)) == Some(o)
  {
    var s := NatToString(o);
    DigitsOfNat(o);
    if o >= 10 {
      assert NatToString(o) == NatToString(o / 10) + [DigitChar(o % 10)];
      if o >= 100 {
        assert NatToString(o / 10) == NatToString(o / 100) + [DigitChar(o / 10 % 10)];
      }
    }
    assert |s| <= 3;
  }

  lemma DigitsHaveNoSeparators(s: string)
    requires AllDigits(s)
    ensures '.' !in s && '/' !in s
  {
  }

  /** Parsing the printed form of an address gives the address back. */
  lemma QuadRoundTrip(q: Quad)
    requires ValidQuad(q)
    ensures ParseQuad(QuadString(q)) == Some(q)
    ensures '/' !in QuadString(q)
  {
    var parts := [NatToString(q.a), NatToString(q.b), NatToString(q.c), NatToString(q.d)];
    forall p | p in parts ensures '.' !in p && '/' !in p {
      DigitsHaveNoSeparators(p);
    }
    JoinSplit(parts, '.');
    OctetRoundTrip(q.a);
    OctetRoundTrip(q.b);
    OctetRoundTrip(q.c);
    OctetRoundTrip(q.d);
    SlashFreeJoin(parts);
  }

  lemma {:induction false} SlashFreeJoin(parts: seq<string>)
    requires forall p :: p in parts ==> '/' !in p
    ensures '/' !in Join(parts, '.')
    decreases |parts|
  {
    if |parts| > 1 {
      assert forall p :: p in parts[1..] ==> p in parts;
      SlashFreeJoin(parts[1..]);
      assert parts[0] in parts;
    } else if |parts| == 1 {
      assert parts[0] in parts;
    }
  }

  /** Parsing the printed form of a network gives the network back. */
  lemma NetworkRoundTrip(n: IPv4Network)
    requires ValidNetwork(n)
    ensures ParseNetwork(NetworkString(n)) == Ok(n)
  {
    var len := NatToString(n.prefix);
    QuadRoundTrip(n.address);
    DigitsHaveNoSeparators(len);
    MaskRoundTrip(n.prefix);
    JoinedNetwork(QuadString(n.address), len, n.address, n.prefix);
  }

  /** A printed prefix length reads back as itself. */
  lemma MaskRoundTrip(prefix: nat)
    requires prefix <= 32
    ensures ParseMask(NatToString(prefix)) == Some(prefix)
  {
    DigitsOfNat(prefix);
    assert ParsePrefixLength(NatToString(prefix)) == Some(prefix);
  }

  /** `ParseNetwork` on an address and a mask joined by `/`. */
  lemma JoinedNetwork(addr: string, mask: string, q: Quad, prefix: nat)
    requires '/' !in addr && '/' !in mask
    requires ParseQuad(addr) == Some(q) && ParseMask(mask) == Some(prefix)
    requires QuadValue(q) % Pow2(32 - prefix) == 0
    ensures ParseNetwork(Join([addr, mask], '/')) == Ok(IPv4Network(q, prefix))
  {
    JoinSplit([addr, mask], '/');
  }

  /** A canonical form is its own canonical form. */
  lemma CanonicalizeIdempotent(s: string)
    requires Canonicalize(s).Ok?
    ensures Canonicalize(Canonicalize(s).value) == Canonicalize(s)
  {
    NetworkRoundTrip(ParseNetwork(s).value);
  }
}
