/** DHCP settings of a network: the `ipv4.dhcp`/`ipv6.dhcp` switches and the
    `ipv4.dhcp.ranges`/`ipv6.dhcp.ranges` lists (`HasDHCPv4`, `HasDHCPv6`,
    `DHCPv4Ranges`, `DHCPv6Ranges`).  IP literal parsing and the 4- and
    16-byte coercions are library code and enter as the functions of an
    `IPLib`; `None` stands for Go's nil `net.IP`. */
module Dhcp {
  import opened Text
  import opened NetworkTypes

  type IP = seq<bv8>

  /** Which coercion a range list applies: `To4` for IPv4, `To16` for IPv6. */
  datatype Family = V4 | V6

  /** `net.ParseIP`, `net.IP.To4` and `net.IP.To16`. */
  datatype IPLib = IPLib(parseIP: string -> Option<IP>, to4: IP -> Option<IP>, to16: IP -> Option<IP>)

  /** `DHCPRange{Start, End}`; an endpoint that did not parse is nil. */
  datatype DHCPRange = DHCPRange(start: Option<IP>, end: Option<IP>)

  /** The coercions yield 4- and 16-byte forms, as the Go library does. */
  ghost predicate LibSound(lib: IPLib) {
    && (forall ip :: lib.to4(ip).Some? ==> |lib.to4(ip).value| == 4)
    && (forall ip :: lib.to16(ip).Some? ==> |lib.to16(ip).value| == 16)
  }

  /** `net.ParseIP(text).To4()` or `.To16()`; both coercions map nil to nil. */
  function Coerce(lib: IPLib, family: Family, text: string): (r: Option<IP>)
    ensures lib.parseIP(text).None? ==> r.None?
    ensures LibSound(lib) && r.Some? ==> |r.value| == if family == V4 then 4 else 16
  {
    match lib.parseIP(text)
    case None => None
    case Some(ip) => if family == V4 then lib.to4(ip) else lib.to16(ip)
  }

  /** A piece of the comma-separated list that yields a range: its trimmed text contains `-`. */
  predicate Dashed(piece: string) {
    '-' in TrimSpace(piece)
  }

  /** The range a dashed piece yields: the parses of the text before and
      after the first `-` of the trimmed piece (the endpoints are not trimmed). */
  function RangeOf(lib: IPLib, family: Family, piece: string): DHCPRange
    requires Dashed(piece)
  {
    var t := TrimSpace(piece);
    var i := IndexOf(t, '-');
    DHCPRange(Coerce(lib, family, t[..i]), Coerce(lib, family, t[i + 1..]))
  }

  /** The ranges a list of pieces yields, in order; undashed pieces are skipped. */
  function RangesOfPieces(lib: IPLib, family: Family, pieces: seq<string>): seq<DHCPRange>
  {
    if pieces == [] then []
    else
      var init, last := pieces[..|pieces| - 1], pieces[|pieces| - 1];
      RangesOfPieces(lib, family, init) + (if Dashed(last) then [RangeOf(lib, family, last)] else [])
  }

  /** The ranges a config value yields: none for "", otherwise those of its comma-separated pieces. */
  function RangesOf(lib: IPLib, family: Family, value: string): seq<DHCPRange> {
    if value == "" then [] else RangesOfPieces(lib, family, Split(value, ','))
  }

  /** The positions of the dashed pieces. */
  function DashedIndices(pieces: seq<string>): set<nat> {
    set i: nat | i < |pieces| && Dashed(pieces[i])
  }

  /** The loop of `DHCPv4Ranges`/`DHCPv6Ranges` over the value of the ranges key. */
  method ParseRanges(lib: IPLib, family: Family, value: string) returns (dhcpRanges: seq<DHCPRange>)
    ensures dhcpRanges == RangesOf(lib, family, value)
    ensures value == "" ==> dhcpRanges == []
  {
    dhcpRanges := [];
    if value != "" {
      var pieces := Split(value, ',');
      for n := 0 to |pieces|
        invariant dhcpRanges == RangesOfPieces(lib, family, pieces[..n])
      {
        assert pieces[..n + 1][..n] == pieces[..n];
        var parts := SplitN2(TrimSpace(pieces[n]), '-');
        if |parts| == 2 {
          FirstSeparatorAt(parts[0], parts[1], '-');
          var startIP := Coerce(lib, family, parts[0]);
          var endIP := Coerce(lib, family, parts[1]);
          dhcpRanges := dhcpRanges + [DHCPRange(startIP, endIP)];
        }
      }
      assert pieces[..|pieces|] == pieces;
    }
  }

  /** Appending a piece adds its position to the dashed ones exactly when it is dashed. */
  lemma DashedIndicesSnoc(pieces: seq<string>)
    requires pieces != []
    ensures var m := |pieces| - 1;
            DashedIndices(pieces) == DashedIndices(pieces[..m]) + (if Dashed(pieces[m]) then {m} else {})
  {
  }

  /** One range per dashed piece. */
  lemma {:induction false} RangesCount(lib: IPLib, family: Family, pieces: seq<string>)
    ensures |RangesOfPieces(lib, family, pieces)| == |DashedIndices(pieces)|
  {
    if pieces != [] {
      var m := |pieces| - 1;
      RangesCount(lib, family, pieces[..m]);
      DashedIndicesSnoc(pieces);
      assert m !in DashedIndices(pieces[..m]);
    }
  }

  /** The dashed piece at position `n` yields the range at position "number of
      dashed pieces before `n`": ranges come out in input order, one for each. */
  lemma {:induction false} RangeAt(lib: IPLib, family: Family, pieces: seq<string>, n: nat)
    requires n < |pieces| && Dashed(pieces[n])
    ensures var ranges, k := RangesOfPieces(lib, family, pieces), |DashedIndices(pieces[..n])|;
            k < |ranges| && ranges[k] == RangeOf(lib, family, pieces[n])
  {
    var m := |pieces| - 1;
    var init := pieces[..m];
    RangesCount(lib, family, init);
    if n == m {
      assert pieces[..n] == init;
    } else {
      assert init[..n] == pieces[..n];
      assert init[n] == pieces[n];
      RangeAt(lib, family, init, n);
    }
  }

  /** With a sound library, IPv4 endpoints are nil or 4 bytes and IPv6 endpoints nil or 16 bytes. */
  lemma {:induction false} EndpointWidths(lib: IPLib, family: Family, pieces: seq<string>)
    requires LibSound(lib)
    ensures var width := if family == V4 then 4 else 16;
            forall r :: r in RangesOfPieces(lib, family, pieces) ==>
              (r.start.Some? ==> |r.start.value| == width) && (r.end.Some? ==> |r.end.value| == width)
  {
    if pieces != [] {
      EndpointWidths(lib, family, pieces[..|pieces| - 1]);
    }
  }

  /** A piece `start-end`, possibly led by white space, yields the range of
      the parses of `start` and `end`. */
  lemma PieceRange(lib: IPLib, family: Family, lead: string, start: string, end: string)
    requires AllSpace(lead) && '-' !in start
    requires start == [] || !IsSpace(start[0])
    requires end == [] || !IsSpace(end[|end| - 1])
    ensures Dashed(lead + start + ['-'] + end)
    ensures RangeOf(lib, family, lead + start + ['-'] + end) ==
            DHCPRange(Coerce(lib, family, start), Coerce(lib, family, end))
  {
    var t := start + ['-'] + end;
    assert t[0] == (if start == [] then '-' else start[0]);
    assert t[|t| - 1] == (if end == [] then '-' else end[|end| - 1]);
    assert lead + start + ['-'] + end == lead + t + [];
    TrimPadded(lead, t, []);
    FirstSeparatorAt(start, end, '-');
    assert t[..|start|] == start;
    assert t[|start| + 1..] == end;
  }

  /** The example of a two-range IPv4 list with a blank after the comma,
      "10.0.0.10-10.0.0.20, 10.0.0.50-10.0.0.60": two ranges, in input order,
      with the literals' parses as endpoints. */
  lemma TwoRanges(lib: IPLib, s0: string, e0: string, s1: string, e1: string)
    requires s0 == "10.0.0.10" && e0 == "10.0.0.20" && s1 == "10.0.0.50" && e1 == "10.0.0.60"
    ensures RangesOf(lib, V4, s0 + "-" + e0 + ", " + s1 + "-" + e1) ==
            [ DHCPRange(Coerce(lib, V4, s0), Coerce(lib, V4, e0)),
              DHCPRange(Coerce(lib, V4, s1), Coerce(lib, V4, e1)) ]
  {
    var p0, p1 := [] + s0 + ['-'] + e0, [' '] + s1 + ['-'] + e1;
    var value := s0 + "-" + e0 + ", " + s1 + "-" + e1;
    assert value == Join([p0, p1], ',');
    SplitJoin([p0, p1], ',');
    PieceRange(lib, V4, [], s0, e0);
    PieceRange(lib, V4, [' '], s1, e1);
    assert value != "";
    assert [p0, p1][..1] == [p0];
    assert [p0][..0] == [];
    var r0, r1 := RangeOf(lib, V4, p0), RangeOf(lib, V4, p1);
    assert RangesOfPieces(lib, V4, [p0]) == [r0];
    assert RangesOfPieces(lib, V4, [p0, p1]) == [r0, r1];
  }

  /** `ipv4.dhcp`/`ipv6.dhcp` reading: DHCP is on when the key is absent or
      empty, or when its value is truthy (`shared.IsTrue`, given as `isTrue`). */
  function DhcpEnabled(config: ConfigMap, key: string, isTrue: string -> bool): (r: bool)
    ensures r <==> key !in config || config[key] == "" || isTrue(config[key])
  {
    var v := Get(config, key);
    v == "" || isTrue(v)
  }

  /** DHCP defaults to on: clearing the key enables it whatever it held. */
  lemma {:induction false} DhcpDefaultsOn(config: ConfigMap, key: string, isTrue: string -> bool)
    ensures DhcpEnabled(config - {key}, key, isTrue)
    ensures DhcpEnabled(config[key := ""], key, isTrue)
  {
  }
}
