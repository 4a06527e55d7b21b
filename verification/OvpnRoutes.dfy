/**
 * The blocks read off the `route` lines of an OpenVPN configuration, one after the other. Together
 * they never claim an address the lines do not route, and they claim every routed address when all
 * netmasks are canonical.
 */
module OvpnRoutes {
  import opened Wrappers
  import opened Netmask
  import opened Powers

  type Address = x: nat | x < WORD

  datatype Mask = Absent | Unreadable | Bits(bits: Address)

  /** A line after trimming and splitting; an address that does not parse is `None`. */
  datatype Line =
    | RedirectGateway
    | Route(address: Option<Address>, mask: Mask)
    | RouteIpv6(block: Option<string>)
    | Skipped

  datatype Block = V4(address: Address, prefix: nat) | V6(text: string)

  method ExtractOvpnRoutes(lines: seq<Line>) returns (blocks: seq<Block>)
    ensures blocks == Emitted(lines)
  {
    blocks := [];
    for i := 0 to |lines|
      invariant blocks == Emitted(lines[..i])
    {
      assert lines[..i + 1][..i] == lines[..i];
      match lines[i]
      case RedirectGateway =>
        blocks := blocks + [V4(0, 0)];
      case Route(address, mask) =>
        if address.None? {
          continue;
        }
        if mask.Bits? {
          PrefixAtMost32(mask.bits);
        }
        var prefix := if mask.Bits? then NetmaskToPrefix(mask.bits) else 32;
        if prefix <= 32 {
          blocks := blocks + [V4(address.value, prefix)];
        }
      case RouteIpv6(block) =>
        if block.None? {
          continue;
        }
        blocks := blocks + [V6(block.value)];
      case Skipped =>
    }
    assert lines[..|lines|] == lines;
  }

  function Emitted(lines: seq<Line>): seq<Block> {
    if lines == [] then [] else Emitted(lines[..|lines| - 1]) + EmittedFor(lines[|lines| - 1])
  }

  function EmittedFor(line: Line): seq<Block> {
    match line
    case RedirectGateway => [V4(0, 0)]
    case Route(Some(address), Bits(bits)) => PrefixAtMost32(bits); [V4(address, NetmaskToPrefix(bits))]
    case Route(Some(address), _) => [V4(address, 32)]
    case RouteIpv6(Some(text)) => [V6(text)]
    case _ => []
  }

  lemma PrefixAtMost32(bits: Address)
    ensures NetmaskToPrefix(bits) <= 32
  {
    AddressesKeptIff(0, bits);
  }

  // ---------------------------------------------------------------------- meaning

  /** The client sends traffic for `x` into the tunnel because of this line. */
  predicate LineRoutes(line: Line, x: Address) {
    match line
    case RedirectGateway => true
    case Route(Some(address), Bits(bits)) => Routed(address, bits, x)
    case Route(Some(address), _) => x == address
    case _ => false
  }

  predicate Claims(b: Block, x: Address) {
    b.V4? && b.prefix <= 32 && InBlock(b.address, b.prefix, x)
  }

  predicate SomeLineRoutes(lines: seq<Line>, x: Address) {
    exists line :: line in lines && LineRoutes(line, x)
  }

  predicate SomeBlockClaims(blocks: seq<Block>, x: Address) {
    exists b :: b in blocks && Claims(b, x)
  }

  predicate CanonicalLine(line: Line) {
    line.Route? && line.address.Some? && line.mask.Bits? ==> Canonical(line.mask.bits)
  }

  lemma OneAddress(address: Address, x: Address)
    ensures InBlock(address, 32, x) <==> x == address
  {
    assert Pow2(32 - 32) == 1;
  }

  lemma WholeSpace(x: Address)
    ensures InBlock(0, 0, x)
  {
    Pow2At32();
    assert Pow2(32 - 0) == WORD;
  }

  lemma LineMeaning(line: Line, x: Address)
    ensures SomeBlockClaims(EmittedFor(line), x) ==> LineRoutes(line, x)
    ensures CanonicalLine(line) && LineRoutes(line, x) ==> SomeBlockClaims(EmittedFor(line), x)
  {
    var blocks := EmittedFor(line);
    assert blocks != [] ==> forall b :: b in blocks <==> b == blocks[0];
    match line
    case RedirectGateway =>
      assert SomeBlockClaims(blocks, x) <==> Claims(blocks[0], x);
      WholeSpace(x);
    case Route(Some(address), Bits(bits)) =>
      assert SomeBlockClaims(blocks, x) <==> Claims(blocks[0], x);
      if Canonical(bits) {
        AddressesKeptIff(address, bits);
      } else {
        OtherMasksAreHosts(bits);
        OneAddress(address, x);
      }
    case Route(Some(address), _) =>
      assert SomeBlockClaims(blocks, x) <==> Claims(blocks[0], x);
      OneAddress(address, x);
    case _ =>
  }

  /** What all blocks together claim of what all lines together route. */
  lemma {:induction false} RoutesKeepMeaning(lines: seq<Line>, x: Address)
    ensures SomeBlockClaims(Emitted(lines), x) ==> SomeLineRoutes(lines, x)
    ensures (forall line :: line in lines ==> CanonicalLine(line)) && SomeLineRoutes(lines, x) ==> SomeBlockClaims(Emitted(lines), x)
  {
    if lines != [] {
      var init, last := lines[..|lines| - 1], lines[|lines| - 1];
      assert lines == init + [last];
      RoutesKeepMeaning(init, x);
      LineMeaning(last, x);
      if SomeBlockClaims(Emitted(init), x) {
        var b :| b in Emitted(init) && Claims(b, x);
        assert b in Emitted(lines);
      }
      if SomeBlockClaims(EmittedFor(last), x) {
        var b :| b in EmittedFor(last) && Claims(b, x);
        assert b in Emitted(lines);
      }
    }
  }

  /** A non-canonical mask loses an address the line routes. */
  lemma LostAddress(line: Line) returns (x: Address)
    requires !CanonicalLine(line)
    ensures LineRoutes(line, x) && !SomeBlockClaims(EmittedFor(line), x)
  {
    var address, bits := line.address.value, line.mask.bits;
    OtherMasksAreHosts(bits);
    Pow2At32();
    assert PrefixMask(32, 32) == WORD - 1;
    x := AnotherAddress(address, bits, 32);
    OneAddress(address, x);
    assert EmittedFor(line) == [V4(address, 32)];
  }

  /** One line keeps its addresses exactly when its netmask, if it has one, is canonical. */
  lemma LineMeaningIff(line: Line)
    ensures (forall x: Address :: SomeBlockClaims(EmittedFor(line), x) <==> LineRoutes(line, x)) <==> CanonicalLine(line)
  {
    if CanonicalLine(line) {
      forall x: Address ensures SomeBlockClaims(EmittedFor(line), x) <==> LineRoutes(line, x) {
        LineMeaning(line, x);
      }
    } else {
      var x := LostAddress(line);
    }
  }

  /** The IPv6 blocks of a list, and the IPv6 lines, by their text. */
  function Ipv6Blocks(blocks: seq<Block>): seq<string> {
    if blocks == [] then []
    else Ipv6Blocks(blocks[..|blocks| - 1]) + if blocks[|blocks| - 1].V6? then [blocks[|blocks| - 1].text] else []
  }

  function Ipv6Lines(lines: seq<Line>): seq<string> {
    if lines == [] then []
    else
      var last := lines[|lines| - 1];
      Ipv6Lines(lines[..|lines| - 1]) + if last.RouteIpv6? && last.block.Some? then [last.block.value] else []
  }

  /** Every readable IPv6 block is kept as it stands, in order, and none is made up. */
  lemma {:induction false} Ipv6LinesKept(lines: seq<Line>)
    ensures Ipv6Blocks(Emitted(lines)) == Ipv6Lines(lines)
  {
    if lines != [] {
      var init, last := lines[..|lines| - 1], lines[|lines| - 1];
      Ipv6LinesKept(init);
      var more := EmittedFor(last);
      if more == [] {
        assert Emitted(lines) == Emitted(init);
      } else {
        assert more == [more[0]];
        assert Emitted(lines)[..|Emitted(lines)| - 1] == Emitted(init);
      }
    }
  }
}
