/** Who is online: OpenVPN clients read from the `CLIENT_LIST` lines of the
    status logs (src/vpn_bot.py:2485-2514) and WireGuard peers read from the
    blocks of `wg show` (src/vpn_bot.py:2517-2553).  Reading the files and
    running `wg` are foreign; their text is a parameter, and so are the
    helpers the bot imports for times and peer configs. */
module OnlineClients {
  import opened Wrappers
  import opened Text
  import opened SortedSets

  // ---------------------------------------------------------------------
  // OpenVPN status logs

  const StatusPrefix: string := "CLIENT_LIST"

  /** The client a status-log line reports: the stripped second comma field
      of a `CLIENT_LIST` line, unless it is empty, `UNDEF` or the
      `Common Name` column title. */
  function StatusLineClient(line: string): (name: Option<string>)
    ensures name.Some? ==> && name.value != [] && Stripped(name.value) && ',' !in name.value
                           && name.value != "UNDEF" && name.value != "Common Name"
  {
    var t := Strip(line);
    if !StartsWith(t, StatusPrefix) then None
    else
      var parts := Split(t, ',');
      if |parts| < 2 then None
      else
        var name := Strip(parts[1]);
        StripIsStripped(parts[1]);
        StripKeepsOut(parts[1], ',');
        if name == [] || name == "UNDEF" || name == "Common Name" then None else Some(name)
  }

  /** Line `i` of readable log `f` reports client `n`. */
  predicate Reports(logs: seq<Option<seq<string>>>, f: int, i: int, n: string) {
    0 <= f < |logs| && logs[f].Some? && 0 <= i < |logs[f].value| && StatusLineClient(logs[f].value[i]) == Some(n)
  }

  /** The set kept while scanning one log: the clients found so far, as
      their sorted list. */
  method ScanStatusLog(clients: seq<string>, lines: seq<string>) returns (found: seq<string>)
    requires StrictlySorted(clients)
    ensures StrictlySorted(found)
    ensures forall n :: n in found <==> n in clients || exists i :: 0 <= i < |lines| && StatusLineClient(lines[i]) == Some(n)
  {
    found := clients;
    for i := 0 to |lines|
      invariant StrictlySorted(found)
      invariant forall n :: n in found <==> n in clients || exists j :: 0 <= j < i && StatusLineClient(lines[j]) == Some(n)
    {
      var name := StatusLineClient(lines[i]);
      if name.Some? {
        found := Insert(found, name.value);
      }
    }
  }

  /** `get_openvpn_online_clients`: exactly the clients some line of a
      readable log reports, sorted and without duplicates; a missing log
      (None) reports nothing. */
  method GetOpenVpnOnlineClients(logs: seq<Option<seq<string>>>) returns (clients: seq<string>)
    ensures StrictlySorted(clients)
    ensures forall n :: n in clients <==> exists f, i :: Reports(logs, f, i, n)
  {
    clients := [];
    for f := 0 to |logs|
      invariant StrictlySorted(clients)
      invariant forall n :: n in clients <==> exists g, i :: g < f && Reports(logs, g, i, n)
    {
      if logs[f].Some? {
        var before := clients;
        clients := ScanStatusLog(clients, logs[f].value);
        ReportsStep(logs, f, before, clients);
      } else {
        ReportsSkip(logs, f, clients);
      }
    }
  }

  /** Adding what readable log `f` reports to what the logs before it
      report gives what the logs up to `f` report. */
  lemma ReportsStep(logs: seq<Option<seq<string>>>, f: int, before: seq<string>, after: seq<string>)
    requires 0 <= f < |logs| && logs[f].Some?
    requires forall n :: n in before <==> exists g, i :: g < f && Reports(logs, g, i, n)
    requires forall n :: n in after <==> n in before || exists i :: 0 <= i < |logs[f].value| && StatusLineClient(logs[f].value[i]) == Some(n)
    ensures forall n :: n in after <==> exists g, i :: g < f + 1 && Reports(logs, g, i, n)
  {
    forall n ensures n in after <==> exists g, i :: g < f + 1 && Reports(logs, g, i, n) {
      if n in after && n !in before {
        var i :| 0 <= i < |logs[f].value| && StatusLineClient(logs[f].value[i]) == Some(n);
        assert Reports(logs, f, i, n);
      }
      if exists g, i :: g < f + 1 && Reports(logs, g, i, n) {
        var g, i :| g < f + 1 && Reports(logs, g, i, n);
        if g == f {
          assert StatusLineClient(logs[f].value[i]) == Some(n);
        }
      }
    }
  }

  /** A missing log reports nothing. */
  lemma ReportsSkip(logs: seq<Option<seq<string>>>, f: int, clients: seq<string>)
    requires 0 <= f < |logs| && logs[f].None?
    requires forall n :: n in clients <==> exists g, i :: g < f && Reports(logs, g, i, n)
    ensures forall n :: n in clients <==> exists g, i :: g < f + 1 && Reports(logs, g, i, n)
  {
  }

  /** The line the OpenVPN server writes for a connected client,
      `CLIENT_LIST,<name>,<more fields>`, reports exactly that client. */
  lemma StatusLineReportsClient(name: string, rest: string)
    requires name != [] && Stripped(name) && ',' !in name && name != "UNDEF" && name != "Common Name"
    requires Stripped(rest)
    ensures StatusLineClient(StatusPrefix + "," + name + "," + rest) == Some(name)
  {
    var line := StatusPrefix + "," + name + "," + rest;
    StatusLineShape(name, rest);
    SecondField(name, rest);
    StripOfStripped(name);
  }

  lemma StatusLineShape(name: string, rest: string)
    requires Stripped(rest)
    ensures var line := StatusPrefix + "," + name + "," + rest;
            Strip(line) == line && StartsWith(line, StatusPrefix)
  {
    var line := StatusPrefix + "," + name + "," + rest;
    assert Stripped(line) by {
      assert line[0] == 'C';
      assert line[|line| - 1] == if rest == [] then ',' else rest[|rest| - 1];
    }
    StripOfStripped(line);
    assert line[..|StatusPrefix|] == StatusPrefix;
  }

  lemma SecondField(name: string, rest: string)
    requires ',' !in name
    ensures |Split(StatusPrefix + "," + name + "," + rest, ',')| >= 2
    ensures Split(StatusPrefix + "," + name + "," + rest, ',')[1] == name
  {
    var line := StatusPrefix + "," + name + "," + rest;
    var tail := name + [','] + rest;
    assert line == StatusPrefix + [','] + tail;
    SplitOnceOf(StatusPrefix, ',', tail);
    SplitOnceOf(name, ',', rest);
    assert Split(line, ',') == [StatusPrefix] + Split(tail, ',');
    assert Split(tail, ',') == [name] + Split(rest, ',');
  }

  // ---------------------------------------------------------------------
  // Handshake times

  const OfflineWords: seq<string> := ["never", "n/a", "(none)"]
  const RelativeUnits: seq<string> := ["мин", "час", "сек", "minute", "hour", "second", "day", "week"]

  /** The helpers the time parsing leans on: the current time, the
      imported `parse_relative_time`, `strptime` with the fixed
      `%Y-%m-%d %H:%M:%S` format (None for a `ValueError`), and the imported
      `is_peer_online`.  Times are whole seconds. */
  datatype Clock = Clock(now: int, relative: string -> Option<int>, absolute: string -> Option<int>,
                         isOnline: int -> bool)

  predicate HasRelativeUnit(value: string) {
    exists u | u in RelativeUnits :: ContainsSub(value, u)
  }

  /** `parse_handshake_time`: no time for an empty value or one of the
      offline words in any letter case, the clock's time for `now`, a
      relative time for values naming a unit, otherwise a date-time. */
  function HandshakeTime(raw: string, clock: Clock): Option<int> {
    var value := Strip(raw);
    if value == [] then None
    else if Lower(value) == "now" then Some(clock.now)
    else if Lower(value) in OfflineWords then None
    else if HasRelativeUnit(value) then clock.relative(value)
    else clock.absolute(value)
  }

  /** Empty handshakes and `never`, `n/a` or `(none)`, padded or in any
      letter case, give no time; `now` gives the current time. */
  lemma LiteralHandshakes(raw: string, clock: Clock)
    ensures Strip(raw) == [] || Lower(Strip(raw)) in OfflineWords ==> HandshakeTime(raw, clock).None?
    ensures Strip(raw) != [] && Lower(Strip(raw)) == "now" ==> HandshakeTime(raw, clock) == Some(clock.now)
  {
  }

  // ---------------------------------------------------------------------
  // `wg show` output

  /** The characters `str.splitlines` breaks at. */
  const LineBreaks: set<char> :=
    {'\n', '\r', '\U{b}', '\U{c}', '\U{1c}', '\U{1d}', '\U{1e}', '\U{85}', '\U{2028}', '\U{2029}'}

  function FirstBreak(s: string): (i: nat)
    ensures i <= |s|
    ensures forall k :: 0 <= k < i ==> s[k] !in LineBreaks
    ensures i < |s| ==> s[i] in LineBreaks
  {
    if s == [] || s[0] in LineBreaks then 0 else FirstBreak(s[1..]) + 1
  }

  /** `str.splitlines()`: `\r\n` is one break and a final break ends the
      last line rather than starting an empty one. */
  function SplitLines(s: string): (lines: seq<string>)
    ensures forall k :: 0 <= k < |lines| ==> forall c | c in lines[k] :: c !in LineBreaks
    decreases |s|
  {
    if s == [] then []
    else
      var i := FirstBreak(s);
      if i == |s| then [s]
      else if s[i] == '\r' && i + 1 < |s| && s[i + 1] == '\n' then [s[..i]] + SplitLines(s[i + 2..])
      else [s[..i]] + SplitLines(s[i + 1..])
  }

  const PeerPrefix: string := "peer:"
  const HandshakePrefix: string := "latest handshake:"

  /** The scanner's state: the peer of the current block, the empty string
      standing for both no peer and an empty one (Python treats both as
      false), and the clients found online so far. */
  datatype Scan = Scan(peer: string, online: seq<string>)

  /** The text after the first colon of a line known to hold one, stripped. */
  function AfterColon(t: string): string
    requires ':' in t
  {
    Strip(SplitOnce(t, ':').1)
  }

  lemma PrefixHasColon(t: string, prefix: string)
    requires StartsWith(t, prefix) && |prefix| > 0 && prefix[|prefix| - 1] == ':'
    ensures ':' in t
  {
    assert t[|prefix| - 1] == prefix[|prefix| - 1];
  }

  /** One line of `wg show`: a `peer:` line opens a block; a handshake line
      in a block with a peer reports the peer (by its configured name when
      it has one) if the handshake is recent, and closes the block. */
  function ScanLine(st: Scan, line: string, names: map<string, string>, clock: Clock): Scan {
    var t := Strip(line);
    if StartsWith(t, PeerPrefix) then
      PrefixHasColon(t, PeerPrefix);
      Scan(AfterColon(t), st.online)
    else if StartsWith(t, HandshakePrefix) && st.peer != [] then
      PrefixHasColon(t, HandshakePrefix);
      var time := HandshakeTime(AfterColon(t), clock);
      if time.Some? && clock.isOnline(time.value) then Scan([], st.online + [Get(names, st.peer).GetOr(st.peer)])
      else Scan([], st.online)
    else st
  }

  function ScanLines(st: Scan, lines: seq<string>, names: map<string, string>, clock: Clock): Scan
    decreases |lines|
  {
    if lines == [] then st else ScanLines(ScanLine(st, lines[0], names, clock), lines[1..], names, clock)
  }

  /** `parse_wireguard_online_clients`: the online peers of `wg show`,
      named through the two interface configs (the AntiZapret one wins
      where both name a peer), sorted and without duplicates. */
  method ParseWireGuardOnlineClients(output: string, vpnNames: map<string, string>, antizapretNames: map<string, string>,
                                     clock: Clock)
    returns (clients: seq<string>)
    ensures clients == SortedSetOf(ScanLines(Scan([], []), SplitLines(output), vpnNames + antizapretNames, clock).online)
    ensures StrictlySorted(clients)
  {
    var names := vpnNames + antizapretNames;
    var lines := SplitLines(output);
    var peer: string := [];
    var online: seq<string> := [];
    for i := 0 to |lines|
      invariant ScanLines(Scan(peer, online), lines[i..], names, clock) == ScanLines(Scan([], []), lines, names, clock)
    {
      var t := Strip(lines[i]);
      if StartsWith(t, PeerPrefix) {
        PrefixHasColon(t, PeerPrefix);
        peer := AfterColon(t);
        continue;
      }
      if StartsWith(t, HandshakePrefix) && peer != [] {
        PrefixHasColon(t, HandshakePrefix);
        var time := HandshakeTime(AfterColon(t), clock);
        if time.Some? && clock.isOnline(time.value) {
          online := online + [Get(names, peer).GetOr(peer)];
        }
        peer := [];
      }
    }
    clients := SortedSetOf(online);
  }

  /** A handshake line outside a block with a peer changes nothing. */
  lemma HandshakeNeedsPeer(online: seq<string>, line: string, names: map<string, string>, clock: Clock)
    requires !StartsWith(Strip(line), PeerPrefix)
    ensures ScanLine(Scan([], online), line, names, clock) == Scan([], online)
  {
  }

  /** A `peer: <id>` line opens a block for that peer. */
  lemma PeerLineOpensBlock(st: Scan, id: string, names: map<string, string>, clock: Clock)
    requires id != [] && Stripped(id)
    ensures ScanLine(st, PeerPrefix + " " + id, names, clock) == Scan(id, st.online)
  {
    PaddedLine(PeerPrefix, id);
  }

  /** A `latest handshake: <time>` line in a block with a peer reports the
      peer, by its configured name if it has one, exactly when the time
      parses and is recent, and closes the block. */
  lemma HandshakeLineClosesBlock(st: Scan, raw: string, names: map<string, string>, clock: Clock)
    requires st.peer != [] && Stripped(raw)
    ensures var time := HandshakeTime(raw, clock);
            ScanLine(st, HandshakePrefix + " " + raw, names, clock)
            == Scan([], st.online + if time.Some? && clock.isOnline(time.value) then [Get(names, st.peer).GetOr(st.peer)] else [])
  {
    var line := HandshakePrefix + " " + raw;
    PaddedLine(HandshakePrefix, raw);
    assert !StartsWith(Strip(line), PeerPrefix) by {
      assert Strip(line)[0] == HandshakePrefix[0];
    }
  }

  /** A whole block: the peer is reported exactly when its handshake time
      parses and is recent, and no peer is left open, so a further
      handshake line adds nothing. */
  lemma BlockReportsPeer(st: Scan, id: string, raw: string, names: map<string, string>, clock: Clock)
    requires id != [] && Stripped(id) && Stripped(raw)
    ensures var time := HandshakeTime(raw, clock);
            ScanLines(st, [PeerPrefix + " " + id, HandshakePrefix + " " + raw], names, clock)
            == Scan([], st.online + if time.Some? && clock.isOnline(time.value) then [Get(names, id).GetOr(id)] else [])
  {
    var peerLine, shakeLine := PeerPrefix + " " + id, HandshakePrefix + " " + raw;
    ScanTwo(st, peerLine, shakeLine, names, clock);
    PeerLineOpensBlock(st, id, names, clock);
    HandshakeLineClosesBlock(Scan(id, st.online), raw, names, clock);
  }

  /** A peer whose handshake is empty, `never`, `n/a` or `(none)` is
      offline: its block reports nothing. */
  lemma OfflineBlockReportsNothing(st: Scan, id: string, raw: string, names: map<string, string>, clock: Clock)
    requires id != [] && Stripped(id) && Stripped(raw)
    requires raw == [] || Lower(raw) in OfflineWords
    ensures ScanLines(st, [PeerPrefix + " " + id, HandshakePrefix + " " + raw], names, clock) == Scan([], st.online)
  {
    BlockReportsPeer(st, id, raw, names, clock);
    StripOfStripped(raw);
    LiteralHandshakes(raw, clock);
  }

  lemma ScanTwo(st: Scan, a: string, b: string, names: map<string, string>, clock: Clock)
    ensures ScanLines(st, [a, b], names, clock) == ScanLine(ScanLine(st, a, names, clock), b, names, clock)
  {
    assert [a, b][1..] == [b] && [b][1..] == [];
    var st1 := ScanLine(st, a, names, clock);
    assert ScanLines(st, [a, b], names, clock) == ScanLines(st1, [b], names, clock);
    assert ScanLines(st1, [b], names, clock) == ScanLines(ScanLine(st1, b, names, clock), [], names, clock);
  }

  /** `<prefix> <value>` for a prefix ending in its only colon: stripping
      keeps the prefix, and the text after the colon reads back as the
      value. */
  lemma PaddedLine(prefix: string, value: string)
    requires prefix == PeerPrefix || prefix == HandshakePrefix
    requires Stripped(value)
    ensures StartsWith(Strip(prefix + " " + value), prefix)
    ensures ':' in Strip(prefix + " " + value)
    ensures AfterColon(Strip(prefix + " " + value)) == value
  {
    var head := PrefixShape(prefix);
    if value == [] {
      PaddedEmpty(prefix, head);
    } else {
      PaddedValue(prefix, head, value);
    }
  }

  /** Both prefixes are a word ending in their only colon. */
  lemma PrefixShape(prefix: string) returns (head: string)
    requires prefix == PeerPrefix || prefix == HandshakePrefix
    ensures prefix == head + [':'] && ':' !in head && Stripped(prefix)
  {
    head := prefix[..|prefix| - 1];
    if prefix == PeerPrefix {
      assert head == "peer";
    } else {
      assert head == "latest handshake";
    }
  }

  lemma PaddedEmpty(prefix: string, head: string)
    requires prefix == head + [':'] && ':' !in head && Stripped(prefix)
    ensures Strip(prefix + " " + []) == prefix
    ensures ':' in prefix && AfterColon(prefix) == []
  {
    assert prefix + " " + [] == [] + prefix + " ";
    assert AllSpace(" ");
    StripOfPadded([], prefix, " ");
    assert prefix == head + [':'] + [];
    SplitOnceOf(head, ':', []);
  }

  lemma PaddedValue(prefix: string, head: string, value: string)
    requires prefix == head + [':'] && ':' !in head && Stripped(prefix)
    requires value != [] && Stripped(value)
    ensures Strip(prefix + " " + value) == prefix + " " + value
    ensures StartsWith(prefix + " " + value, prefix)
    ensures ':' in prefix + " " + value && AfterColon(prefix + " " + value) == value
  {
    var line := prefix + " " + value;
    assert Stripped(line) by {
      assert line[0] == prefix[0];
      assert line[|line| - 1] == value[|value| - 1];
    }
    StripOfStripped(line);
    assert line[..|prefix|] == prefix;
    assert line == head + [':'] + (" " + value);
    SplitOnceOf(head, ':', " " + value);
    assert " " + value == " " + value + [];
    assert AllSpace(" ");
    StripOfPadded(" ", value, []);
  }
}
