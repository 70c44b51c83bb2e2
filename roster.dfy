/** `get_clients(vpn_type)` (src/vpn_bot.py:2142-2179): the client roster
    read from the lifecycle script's listing. */
module Roster {
  import opened Wrappers
  import opened Text
  import opened Gateway

  /** One roster record; WireGuard clients have no expiry. */
  datatype VpnClient = VpnClient(name: string, expire: Option<string>)

  const OpenVpnBanner: string := "OpenVPN"
  const WireGuardBanner: string := "WireGuard"

  /** An OpenVPN listing line `name|expire`; blank lines, banners, lines
      without `|` and lines with an empty name give nothing. */
  function OpenVpnEntry(line: string): (c: Option<VpnClient>)
    ensures c.Some? ==> c.value.expire.Some?
  {
    var t := Strip(line);
    if t == [] || StartsWith(t, OpenVpnBanner) || '|' !in t then None
    else
      var (name, expire) := SplitOnce(t, '|');
      if Strip(name) == [] then None else Some(VpnClient(Strip(name), Some(Strip(expire))))
  }

  /** A WireGuard listing line is a bare client name; blank lines and both
      banners give nothing. */
  function WireGuardEntry(line: string): (c: Option<VpnClient>)
    ensures c.Some? ==> c.value.expire.None?
  {
    var t := Strip(line);
    if t == [] || StartsWith(t, WireGuardBanner) || StartsWith(t, OpenVpnBanner) then None
    else Some(VpnClient(t, None))
  }

  function Entry(vpnType: string, line: string): Option<VpnClient> {
    if vpnType == "openvpn" then OpenVpnEntry(line)
    else if vpnType == "wireguard" then WireGuardEntry(line)
    else None
  }

  function Kept(c: Option<VpnClient>): seq<VpnClient> {
    if c.Some? then [c.value] else []
  }

  /** The records the listing's lines give, in the order of the lines. */
  function ParseRoster(vpnType: string, lines: seq<string>): (clients: seq<VpnClient>)
    ensures |clients| <= |lines|
  {
    if lines == [] then []
    else ParseRoster(vpnType, lines[..|lines| - 1]) + Kept(Entry(vpnType, lines[|lines| - 1]))
  }

  /** What a roster record promises: a non-empty name without surrounding
      whitespace or line breaks; for OpenVPN a name without `|` and an
      expiry, for WireGuard no expiry. */
  predicate Proper(vpnType: string, c: VpnClient) {
    && c.name != [] && Stripped(c.name) && '\n' !in c.name
    && (vpnType == "openvpn" ==> '|' !in c.name && c.expire.Some? && Stripped(c.expire.value) && '\n' !in c.expire.value)
    && (vpnType != "openvpn" ==> c.expire.None?)
  }

  lemma EntryProper(vpnType: string, line: string)
    requires '\n' !in line
    ensures Entry(vpnType, line).Some? ==> Proper(vpnType, Entry(vpnType, line).value)
  {
    var t, _, _ := StripParts(line);
    StripKeepsOut(line, '\n');
    if vpnType == "openvpn" && t != [] && '|' in t {
      var (name, expire) := SplitOnce(t, '|');
      StripIsStripped(name);
      StripIsStripped(expire);
      StripKeepsOut(name, '|');
      StripKeepsOut(name, '\n');
      StripKeepsOut(expire, '\n');
    }
  }

  /** Every record of a parsed listing is proper. */
  lemma {:induction false} RosterProper(vpnType: string, lines: seq<string>)
    requires forall i :: 0 <= i < |lines| ==> '\n' !in lines[i]
    ensures forall c | c in ParseRoster(vpnType, lines) :: Proper(vpnType, c)
  {
    if lines != [] {
      RosterProper(vpnType, lines[..|lines| - 1]);
      EntryProper(vpnType, lines[|lines| - 1]);
    }
  }

  /** The option `get_clients` runs: 3 lists OpenVPN clients, 6 WireGuard. */
  function ListOption(vpnType: string): string {
    if vpnType == "openvpn" then "3" else "6"
  }

  /** The roster made of a script result; a failed script gives none. */
  function Clients(vpnType: string, result: ScriptResult): (clients: seq<VpnClient>)
    ensures result.returncode != 0 ==> clients == []
    ensures vpnType != "openvpn" && vpnType != "wireguard" ==> clients == []
    ensures forall c | c in clients :: Proper(vpnType, c)
  {
    if result.returncode != 0 then []
    else
      var lines := Split(result.stdout, '\n');
      RosterProper(vpnType, lines);
      assert vpnType != "openvpn" && vpnType != "wireguard" ==> ParseRoster(vpnType, lines) == [] by {
        if vpnType != "openvpn" && vpnType != "wireguard" {
          NothingParsed(vpnType, lines);
        }
      }
      ParseRoster(vpnType, lines)
  }

  lemma {:induction false} NothingParsed(vpnType: string, lines: seq<string>)
    requires vpnType != "openvpn" && vpnType != "wireguard"
    ensures ParseRoster(vpnType, lines) == []
  {
    if lines != [] {
      NothingParsed(vpnType, lines[..|lines| - 1]);
    }
  }

  /** `get_clients(vpn_type)`: runs the listing option and collects a record
      per accepted line. */
  method GetClients(vpnType: string, scriptPath: string, scriptExists: bool, run: string -> Outcome)
    returns (clients: seq<VpnClient>)
    ensures clients == Clients(vpnType, ExecuteScript(scriptPath, scriptExists, ListOption(vpnType), None, None, run))
  {
    var result := ExecuteScript(scriptPath, scriptExists, ListOption(vpnType), None, None, run);
    clients := [];
    if result.returncode != 0 {
      return;
    }
    var lines := Split(result.stdout, '\n');
    for i := 0 to |lines|
      invariant clients == ParseRoster(vpnType, lines[..i])
    {
      assert lines[..i + 1][..i] == lines[..i];
      var entry := Entry(vpnType, lines[i]);
      if entry.Some? {
        clients := clients + [entry.value];
      }
    }
    assert lines[..|lines|] == lines;
  }

  // ---------------------------------------------------------------------
  // The listing format

  /** A record the script can list so that it reads back unchanged. */
  predicate Listable(vpnType: string, c: VpnClient) {
    && Proper(vpnType, c)
    && !StartsWith(c.name, OpenVpnBanner)
    && (vpnType == "wireguard" ==> !StartsWith(c.name, WireGuardBanner))
  }

  /** The script's line for a record. */
  function ListingLine(vpnType: string, c: VpnClient): string {
    if vpnType == "openvpn" then c.name + "|" + c.expire.GetOr("") else c.name
  }

  function ListingLines(vpnType: string, cs: seq<VpnClient>): (lines: seq<string>)
    ensures |lines| == |cs|
    ensures forall i :: 0 <= i < |cs| ==> lines[i] == ListingLine(vpnType, cs[i])
  {
    if cs == [] then [] else ListingLines(vpnType, cs[..|cs| - 1]) + [ListingLine(vpnType, cs[|cs| - 1])]
  }

  lemma LineReadsBack(vpnType: string, c: VpnClient)
    requires vpnType == "openvpn" || vpnType == "wireguard"
    requires Listable(vpnType, c)
    ensures Entry(vpnType, ListingLine(vpnType, c)) == Some(c)
    ensures '\n' !in ListingLine(vpnType, c)
  {
    var line := ListingLine(vpnType, c);
    if vpnType == "openvpn" {
      var e := c.expire.value;
      assert line == c.name + ['|'] + e;
      assert Stripped(line) by {
        assert line[0] == c.name[0];
        assert line[|line| - 1] == if e == [] then '|' else e[|e| - 1];
      }
      StripOfStripped(line);
      StartsWithBefore(c.name, '|', e, OpenVpnBanner);
      SplitOnceOf(c.name, '|', e);
      StripOfStripped(c.name);
      StripOfStripped(e);
    } else {
      StripOfStripped(line);
    }
  }

  /** A last line that gives a record adds that record at the end. */
  lemma ParseRosterSnoc(vpnType: string, lines: seq<string>, c: VpnClient)
    requires lines != [] && Entry(vpnType, lines[|lines| - 1]) == Some(c)
    ensures ParseRoster(vpnType, lines) == ParseRoster(vpnType, lines[..|lines| - 1]) + [c]
  {
  }

  /** Lines that each give a record parse to those records, in order. */
  lemma {:induction false} EveryLineKept(vpnType: string, lines: seq<string>, cs: seq<VpnClient>)
    requires |lines| == |cs|
    requires forall i | 0 <= i < |lines| :: Entry(vpnType, lines[i]) == Some(cs[i])
    ensures ParseRoster(vpnType, lines) == cs
  {
    if lines != [] {
      var n := |lines| - 1;
      EveryLineKept(vpnType, lines[..n], cs[..n]);
      ParseRosterSnoc(vpnType, lines, cs[n]);
      assert cs[..n] + [cs[n]] == cs;
    }
  }

  lemma LinesReadBack(vpnType: string, cs: seq<VpnClient>)
    requires vpnType == "openvpn" || vpnType == "wireguard"
    requires forall c | c in cs :: Listable(vpnType, c)
    ensures ParseRoster(vpnType, ListingLines(vpnType, cs)) == cs
  {
    var lines := ListingLines(vpnType, cs);
    forall i | 0 <= i < |lines| ensures Entry(vpnType, lines[i]) == Some(cs[i]) {
      assert cs[i] in cs;
      LineReadsBack(vpnType, cs[i]);
    }
    EveryLineKept(vpnType, lines, cs);
  }

  /** A roster the script prints, one record per line, is read back as the
      same records in the same order. */
  lemma ListingRoundTrip(vpnType: string, cs: seq<VpnClient>)
    requires vpnType == "openvpn" || vpnType == "wireguard"
    requires forall c | c in cs :: Listable(vpnType, c)
    ensures Clients(vpnType, ScriptResult(0, Join("\n", ListingLines(vpnType, cs)), "")) == cs
  {
    var lines := ListingLines(vpnType, cs);
    if cs == [] {
      assert Split("", '\n') == [""];
      assert ParseRoster(vpnType, [""]) == ParseRoster(vpnType, []) + Kept(Entry(vpnType, ""));
    } else {
      forall i | 0 <= i < |lines| ensures '\n' !in lines[i] {
        assert cs[i] in cs;
        LineReadsBack(vpnType, cs[i]);
      }
      SplitJoin(lines, '\n');
      LinesReadBack(vpnType, cs);
    }
  }
}
