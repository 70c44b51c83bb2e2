# VPN administration bot: verified model of its core

The bot is a Telegram front end for a host that serves OpenVPN and WireGuard
clients. Administrators, listed in `ADMIN_ID`, create and delete clients by
driving the shell script `client.sh`. Ordinary users are bound to one client
each through `CLIENT_MAPPING` in the `.env` file. The bot also keeps a JSON
settings file with per-administrator notification switches and load
thresholds. A background task alerts administrators when CPU or RAM use
reaches a threshold.

This project models the logic of `src/vpn_bot.py` that decides what the bot
stores, reads back, allows and runs:

- **Env file** (`env_file.dfy`): reading `.env` (`read_env_values`) and
  rewriting it (`update_env_values`), over the file's lines as `readlines`
  gives them.
- **Client mapping** (`client_mapping.dfy`): the `CLIENT_MAPPING` value, a
  comma-separated `id:name` list. It is parsed, serialised, set and removed.
- **Settings** (`settings.dfy`): `load_settings` and its normalisation, the
  two notification switches, the load thresholds and `update_admin_info`.
  The settings file is a `SettingsStore` object whose state is what the file
  parses to.
- **Authorization** (`authorization.dfy`): parsing `ADMIN_ID`, and the
  check that a non-administrator may open only their own client.
- **Validation** (`validation.dfy`): the client-name, days and threshold
  checks, and the `id:name` regular expression, written out as a matcher.
- **Script gateway** (`gateway.dfy`): the command line `execute_script`
  builds and the result dict it returns. The shell is a parameter.
- **Roster** (`roster.dfy`): `get_clients`, which parses the script's
  listing.
- **Client list** (`client_list.dfy`): the paginated keyboard, the expiry
  labels and the callback strings the keyboard emits and the callback
  handler parses.
- **Conversation** (`conversation.dfy`): the per-chat state machine
  `VPNSetup` and the handlers for typed input. These are creation (name,
  days, skip), threshold input and mapping input. Each is a pure transition
  function, mirrored by a `Conversation` object with the `state` and `data`
  fields that `FSMContext` holds.
- **Online clients** (`online_clients.dfy`, `sorted_sets.dfy`): the
  OpenVPN status-log scan and the `wg show` parser. Both return
  `sorted(set(...))`.
- **Load monitor** (`load_monitor.dfy`): one pass of `monitor_server_load`
  over the `last_load_alerts` map, and the load colour.
- **Formatting** (`formatting.dfy`): `format_days` with its Russian plural
  forms.
- Support modules model the Python semantics the bot relies on:
  - `text.dfy`: `strip` over the full `isspace` set, `split`, `join`,
    `isdigit`/`int`, `str(int)` and string order;
  - `dicts.dfy`: insertion-ordered dicts;
  - `wrappers.dfy`: `Option`.

Foreign effects become parameters:
- the file contents (`None` for a missing file) and parsed JSON;
- the shell's outcome, a function from the command to the exit status and
  output;
- the date parser and today's date;
- the clock, `strptime` and the helpers `parse_relative_time` and
  `is_peer_online`;
- whether a Telegram message was delivered;
- the sampled CPU and RAM percentages.

The source carries unresolved merge-conflict markers in several places, for
example at src/vpn_bot.py:424-451 and 2507-2513. In every function modelled
here both sides of each conflict behave alike apart from logging, and the
model follows that common behaviour.

Two duplicated definitions:
- `format_days` is defined twice, identically. The later definition at
  397-405 is the one in force.
- `handle_skip_expire` is registered twice with identical bodies
  (1806-1845 and 1846-1880). The first registration handles the callback.

Where the code and its description disagree, the model follows the code.
A missing `action` or `client_name` in the session data makes
`handle_client_name`, `handle_days` and `handle_skip_expire` raise
`KeyError`: `data["action"]`, `data["client_name"]`. The session is then
left as it was. The model's `raised` flag records this instead of a
"session expired" reply.

`handle_skip_expire` is registered for the `entering_days` state only, so its
own check of the state never fails. Callbacks are dispatched to the first
matching handler, and four handlers registered before it are filtered on a
state alone (`choosing_config_type` 1453, `choosing_protocol` 1560,
`choosing_wg_type` 1627, `confirming_rename` 1685), so a skip press in those
states goes to them and is outside the skip model. In every other state
besides `entering_days` the skip button reaches no branch and changes nothing.
Messages are dispatched the same way: the `/start`, `/id` and `/client`
command handlers (1017, 1048, 1054) carry no state filter and are registered
before the typed-input handlers, so a command text never reaches the name,
days, threshold or mapping transitions, in any state. The transitions model
the text those handlers receive. The name, days and mapping handlers start with
`update_admin_info`, which rewrites the settings file and raises, before any
input is checked, when the stored entry for the sender is not a dict.

## Model

| member | source | states |
|---|---|---|
| Text.StripParts | src/vpn_bot.py:161 | `strip` leaves no whitespace at either end, and the input is its result with whitespace on both sides |
| Text.StripIgnoresPadding | src/vpn_bot.py:161 | extra whitespace around a string does not change what `strip` returns |
| Text.Split | src/vpn_bot.py:258 | `split(c)` gives at least one part and no part contains `c` |
| Text.SplitJoin | src/vpn_bot.py:282 | splitting a `join` of parts free of the separator gives the parts back |
| Text.JoinSplit | src/vpn_bot.py:258 | joining the parts of a split restores the string |
| Text.NatToString | src/vpn_bot.py:275 | `str(n)` is a digit string that `int` reads back as `n`, with no leading zero |
| Text.IntToStringInjective | src/vpn_bot.py:275 | distinct user ids give distinct `str(user_id)` keys |
| Text.LessTransitive | src/vpn_bot.py:2514 | Python's string order is transitive (with `LessTotal`, `LessIrreflexive` and `LessAsymmetric`: it is a strict total order) |
| Dicts.Put | src/vpn_bot.py:281 | `d[k] = v`: the mapping becomes the old one with `k` bound to `v`; an existing key keeps its position, a new one goes last |
| Dicts.Remove | src/vpn_bot.py:293 | `d.pop(k, None)`: the mapping loses `k` and nothing else; a missing key leaves the dict as it was; a present key's entry is cut out and the other entries keep their order |
| EnvFile.ReadLines | src/vpn_bot.py:183 | `readlines`: non-empty lines with a newline only at their end, every line but the last terminated, concatenating back to the content |
| EnvFile.ReadEnvValues | src/vpn_bot.py:156-170 | the loop gives the values of all assignment lines, with the later line winning for a repeated key |
| EnvFile.EnvEntryOneLine | src/vpn_bot.py:160-165 | a key or value read from one line of the file never holds a newline |
| EnvFile.AssignmentReadsBack | src/vpn_bot.py:160-165 | a `key=value` text with a valid key and a stripped value reads back as that key and value, and the rewrite pass sees that key on it |
| EnvFile.RenderReadsBack | src/vpn_bot.py:160-165 | a line `update_env_values` writes reads back as the key and value it was made from, and is one terminated line |
| EnvFile.UpdateEnvValues | src/vpn_bot.py:173-214 | the written file is the intended rewrite: an empty update set leaves the file untouched; matching lines are replaced in place; missing keys are appended after a terminated last line |
| EnvFile.UpdatedLinesWellFormed | src/vpn_bot.py:191-207 | the rewritten lines are again lines as `readlines` splits them |
| EnvFile.UpdatedValues | src/vpn_bot.py:173-207 | the values in the rewritten lines are the old values overridden by every update with a non-empty key |
| EnvFile.UpdateThenRead | src/vpn_bot.py:156-214 | writing updates and reading the file back gives the old values overridden by exactly the updates |
| EnvFile.AsWrittenWhenTerminated | src/vpn_bot.py:191-207 | for an empty file or one ending in a newline, the code as written and the corrected rewrite agree |
| EnvFile.AsWrittenWhenPresent | src/vpn_bot.py:191-207 | when every updated key is already in the file nothing is appended, and the code as written and the corrected rewrite agree |
| EnvFile.AsWrittenGluesLastLine | src/vpn_bot.py:205-207 | as written, appending to a file whose last line `k1=v1` lacks a newline yields `k1=v1k2=v2\n`, which reads back as `k1` = `v1k2=v2` with `k2` lost |
| ClientMapping.MappingOfItems | src/vpn_bot.py:258-267 | the parsed mapping has no repeated id (`Dicts.Put` gives the later item's value at the earlier position) |
| ClientMapping.ParseClientMapping | src/vpn_bot.py:250-271 | the loop over the comma-separated items computes the mapping `MappingOf` defines |
| ClientMapping.GetClientMapping | src/vpn_bot.py:250-271 | `get_client_mapping` is the parse of the `CLIENT_MAPPING` value read from the file |
| ClientMapping.GetClientNameForUser | src/vpn_bot.py:274-275 | the client bound to `str(user_id)`, or none |
| ClientMapping.SerializeRoundTrip | src/vpn_bot.py:282 | parsing the serialised `id:name,...` form of a well-formed mapping gives it back, order included |
| ClientMapping.ClientMappingWellFormed | src/vpn_bot.py:250-271 | every mapping read from a file has non-empty, unpadded ids without `,`, `:` or newline and names without `,` or newline, so it survives serialisation |
| ClientMapping.SerializeIsValue | src/vpn_bot.py:282-283 | the serialised mapping is a valid single-line `.env` value |
| ClientMapping.AsWrittenAgrees | src/vpn_bot.py:191-207 | on a file that is empty, ends with a newline or already holds `CLIENT_MAPPING`, the code as written writes what the corrected rewrite writes for a `CLIENT_MAPPING` update |
| ClientMapping.SetClientMapping | src/vpn_bot.py:278-287 | the file written is the corrected env rewrite of `CLIENT_MAPPING` with the mapping that has the id bound to the name, which is also what the code as written writes on a file it does not glue onto |
| ClientMapping.RemoveClientMapping | src/vpn_bot.py:289-298 | an unmapped id leaves the file untouched; otherwise the mapping without the id is written, and the code as written writes the same, since a file that maps the id holds `CLIENT_MAPPING` |
| ClientMapping.StoreThenRead | src/vpn_bot.py:250-283 | storing a well-formed mapping and reading the file back gives exactly that mapping and every other key as before; as written, the same on a file it does not glue onto |
| ClientMapping.SetThenGet | src/vpn_bot.py:278-287 | with the corrected env rewrite, after `set_client_mapping(id, name)` the id maps to the name and every other id keeps its client |
| ClientMapping.SetThenGetAsWritten | src/vpn_bot.py:278-287 | the code as written gives the same on a file that is empty, ends with a newline or already holds `CLIENT_MAPPING` |
| ClientMapping.SetClientMappingAsWrittenLoses | src/vpn_bot.py:278-287 | as written, on a one-line file `k1=v1` without a final newline the new `CLIENT_MAPPING` line is glued on and the mapping reads back empty, the new binding included |
| ClientMapping.MappedAppendsCleanly | src/vpn_bot.py:250-252 | `get_client_mapping` reads an empty mapping when the key is absent, so a file whose mapping binds an id holds the `CLIENT_MAPPING` line and rewriting it appends nothing |
| ClientMapping.RemoveThenGet | src/vpn_bot.py:289-298 | after `remove_client_mapping(id)` the id is unmapped and every other id keeps its client, for the corrected updater and, when the id was mapped, for the code as written |
| Settings.SettingsOf | src/vpn_bot.py:117-143 | loaded settings always hold dict-valued admin and client tables; a missing, unparsable or non-dict file gives exactly those two empty tables; otherwise every other key is kept |
| Settings.SaveThenLoad | src/vpn_bot.py:117-153 | saving normalised settings and loading them again gives them back |
| Settings.AdminFlag | src/vpn_bot.py:301-309 | a switch is on for an unknown admin or a malformed entry, and otherwise is the truthiness of the stored value, defaulting to on |
| Settings.FlagThenQuery | src/vpn_bot.py:301-357 | after setting a switch it reads back as set, and every other switch of every admin reads as before |
| Settings.ToggleFlips | src/vpn_bot.py:1236-1241 | the settings menu's toggle inverts exactly the switch pressed |
| Settings.Thresholds | src/vpn_bot.py:359-366 | each threshold is the stored value under its key when the table is an object holding it, and 80 when the table is missing, not an object, or lacks that key |
| Settings.DefaultThresholds | src/vpn_bot.py:105-106 | a fresh installation alerts at 80 % CPU and 80 % RAM |
| Settings.SetThenGetThresholds | src/vpn_bot.py:359-383 | setting one threshold and reading both gives the new value for it, the old value for the other, and unchanged admin entries |
| Settings.AdminInfoMerged | src/vpn_bot.py:217-247 | the refresh fails exactly when the stored entry is not a dict; otherwise the settings stay normalised |
| Settings.AdminInfoFile | src/vpn_bot.py:217-247 | without a user, or when the refresh raises, the file is unchanged; otherwise it holds normalised settings with an entry for the user |
| Settings.AdminInfoKeepsFlags | src/vpn_bot.py:231-245 | refreshing an admin's names never changes any notification switch, and other admins' entries are untouched |
| Settings.AdminInfoName | src/vpn_bot.py:225-245 | the entry holds exactly the four fields; the display name is the fresh one when the user has one, else the stored one |
| Settings.SettingsStore.Load | src/vpn_bot.py:117-143 | `load_settings` returns the normalised contents of the file |
| Settings.SettingsStore.Save | src/vpn_bot.py:146-153 | the file afterwards holds the data |
| Settings.SettingsStore.IsAdminNotificationEnabled | src/vpn_bot.py:301-309 | the message switch as `AdminFlag` defines it |
| Settings.SettingsStore.IsAdminLoadNotificationEnabled | src/vpn_bot.py:330-338 | the load-alert switch as `AdminFlag` defines it |
| Settings.SettingsStore.SetAdminNotification | src/vpn_bot.py:312-327 | the file afterwards holds the loaded settings with the message switch set |
| Settings.SettingsStore.SetAdminLoadNotification | src/vpn_bot.py:341-356 | the file afterwards holds the loaded settings with the load-alert switch set |
| Settings.SettingsStore.GetLoadThresholds | src/vpn_bot.py:359-366 | the thresholds as `Thresholds` defines them |
| Settings.SettingsStore.SetLoadThresholds | src/vpn_bot.py:369-383 | the file afterwards holds the settings with the given thresholds replaced |
| Settings.SettingsStore.UpdateAdminInfo | src/vpn_bot.py:217-247 | no user changes nothing; a malformed stored entry raises and leaves the file; otherwise the merged settings are written (`AdminInfoRaises`, `AdminInfoFile`) |
| Authorization.ParseAdminIds | src/vpn_bot.py:100 | the comprehension keeps the items whose stripped text is a digit string, as numbers, in order |
| Authorization.AdminIdsRoundTrip | src/vpn_bot.py:100 | an `ADMIN_ID` written as comma-separated decimal ids is read back as exactly those ids |
| Authorization.AdminIdsConcat | src/vpn_bot.py:100 | the ids of two runs of items are those of the first run followed by those of the second, so the ids keep the order of their items |
| Authorization.AdminIdsFromItems | src/vpn_bot.py:100 | a number is an administrator id exactly when some item, stripped, is its digits |
| Authorization.CheckClientSelection | src/vpn_bot.py:1418-1424 | the access decision is `MayOpenClient` on the stored mapping |
| Authorization.OnlyOwnClient | src/vpn_bot.py:1419-1424 | a non-administrator may open a client exactly when the mapping binds it to their id, so at most one client |
| Validation.StrippedNameMatches | src/vpn_bot.py:2027-2034 | on stripped text the name pattern (with `$` accepting a final newline) accepts exactly 1 to 32 of `[A-Za-z0-9_.-]`; accepted names hold no space, `,`, `:` or `|` |
| Validation.DaysAcceptedRange | src/vpn_bot.py:2083-2091 | a decimal number is accepted as days exactly when it is 1 to 1825 |
| Validation.ThresholdAcceptedRange | src/vpn_bot.py:1385-1388 | a decimal number is accepted as a threshold exactly when it is 1 to 100 |
| Validation.AcceptedDaysAreOneWord | src/vpn_bot.py:2083-2091 | accepted days contain no space and no padding |
| Validation.MatchMappingComplete | src/vpn_bot.py:1086-1087 | every line of the form digits, spaces, `:`, spaces, name (and an optional final newline) matches, giving those digits and that name |
| Validation.MatchMappingSound | src/vpn_bot.py:1086-1087 | every match has that form, with the groups as its digits and its name |
| Validation.MatchedPairIsStorable | src/vpn_bot.py:1086-1095 | a matched id and name are non-empty, unpadded and free of `,`, `:` and newline, so the mapping stores them unchanged |
| Gateway.Command | src/vpn_bot.py:971-976 | options 7 and 8, and a missing or empty name, give just the script and the option |
| Gateway.CommandWords | src/vpn_bot.py:971-976 | for space-free parts, splitting the command gives exactly script, option, then the name when one is passed, then days for option 1 |
| Gateway.ExecuteScript | src/vpn_bot.py:959-1002 | a missing script gives exit status 1 and no output; otherwise the shell's status and stripped output and errors for the built command, or status 1 and no output when running it raises |
| Roster.OpenVpnEntry | src/vpn_bot.py:2156-2166 | an OpenVPN record always carries an expiry |
| Roster.WireGuardEntry | src/vpn_bot.py:2169-2173 | a WireGuard record never carries an expiry |
| Roster.RosterProper | src/vpn_bot.py:2152-2173 | every parsed record has a non-empty unpadded single-line name; OpenVPN records have a name without `|` and an unpadded expiry, WireGuard records no expiry |
| Roster.Clients | src/vpn_bot.py:2148-2175 | a failed script or an unknown VPN type gives no clients; every client is a proper record |
| Roster.GetClients | src/vpn_bot.py:2142-2179 | `get_clients` is the roster parsed from `execute_script` with option 3 for OpenVPN and 6 otherwise |
| Roster.ListingRoundTrip | src/vpn_bot.py:2152-2175 | a roster the script prints one record per line is read back unchanged, in order |
| ClientList.TotalPages | src/vpn_bot.py:1894 | the fewest pages of five that hold all clients |
| ClientList.PageContents | src/vpn_bot.py:877-881 | page `p` shows clients `5(p-1)` to `5p`, clipped to the list |
| ClientList.PagesPartition | src/vpn_bot.py:877-881 | read page by page, the list shows every client exactly once and in order |
| ClientList.PageOf | src/vpn_bot.py:877-881 | client `i` appears on the existing page `i/5+1` at row `i%5` |
| ClientList.StatusOf | src/vpn_bot.py:895-900 | expired exactly when the date is past, expiring soon for 0 to 30 days left, active beyond |
| ClientList.StatusMonotone | src/vpn_bot.py:895-900 | more days left never gives a worse status |
| ClientList.Label | src/vpn_bot.py:889-905 | without a usable expiry the label is the bare name |
| ClientList.LabelShows | src/vpn_bot.py:889-905 | every label starts with the name; with a usable expiry it is `name (date)`, followed by the status only when the date parses |
| ClientList.PageCallbackParses | src/vpn_bot.py:918-924 | a page button's callback splits back into its action, VPN type and page number |
| ClientList.ItemCallbackParses | src/vpn_bot.py:907-910 | a client button's callback splits back into its VPN type and the full client name, underscores included |
| ClientList.CreateClientListKeyboard | src/vpn_bot.py:874-935 | the keyboard is one row per client on the page, the pagination row when there is one, then the back button |
| ClientList.KeyboardLayout | src/vpn_bot.py:874-935 | the rows are the page's clients in order, the previous/next buttons appear exactly when such a page exists, and the back button is last |
| ClientList.NavigationInRange | src/vpn_bot.py:915-926 | from an existing page, which is never empty, the previous and next buttons lead only to pages that exist |
| Conversation.RejectionChangesNothing | src/vpn_bot.py:1806-2091 | rejected names, days, thresholds or mapping lines leave the session unchanged and do nothing, and raise only when `update_admin_info` did; the skip button outside `entering_days` and the four state-filtered callback states changes nothing |
| Conversation.RaisingChangesNothing | src/vpn_bot.py:1075-2097 | a failing `update_admin_info` makes the name, days and mapping handlers raise; a raise, from it or from a missing session value, leaves the session unchanged and does nothing |
| Conversation.ClientNameStepChecked | src/vpn_bot.py:2023-2074 | the name step stores only checked names, and any script call it makes carries a checked name and no days |
| Conversation.DaysStepChecked | src/vpn_bot.py:2078-2122 | the days step calls the script only with the stored checked name and days in 1..1825 |
| Conversation.DefaultDaysAccepted | src/vpn_bot.py:1831 | the default of 1825 days passes the days check |
| Conversation.SkipExpireStepChecked | src/vpn_bot.py:1806-1846 | skipping calls the script only with the stored checked name and the accepted default |
| Conversation.ThresholdStepChecked | src/vpn_bot.py:1378-1409 | a threshold write carries the typed value, in 1..100, for the resource being edited only |
| Conversation.MappingStepChecked | src/vpn_bot.py:1072-1100 | a mapping write carries an id and name that the stored mapping keeps unchanged |
| Conversation.MappingInputIsStored | src/vpn_bot.py:1085-1100 | after an administrator's accepted `id:name` line is stored, the mapping read back binds that id to that name and keeps the rest; as written, the same on a file it does not glue onto |
| Conversation.ScriptCallWords | src/vpn_bot.py:971-976 | a creation call with checked input reaches the script as exactly script, option, name and, for OpenVPN, the days |
| Conversation.OpenVpnDialogue | src/vpn_bot.py:1982-2122 | after button 1, a valid name and then valid days or the skip button create exactly that client with those days (1825 when skipped) |
| Conversation.WireGuardDialogue | src/vpn_bot.py:1982-2074 | after button 4 a valid name creates that client at once, without days, and ends the session |
| Conversation.Conversation.ChooseCreate | src/vpn_bot.py:1982-1986 | the session moves as `OnCreateChosen` says |
| Conversation.Conversation.HandleClientName | src/vpn_bot.py:2023-2074 | the settings file is refreshed by `update_admin_info` first; the session and effect are those of `OnClientName`, raising when that refresh raises |
| Conversation.Conversation.HandleDays | src/vpn_bot.py:2078-2122 | the settings file is refreshed by `update_admin_info` first; the session and effect are those of `OnDays`, raising when that refresh raises |
| Conversation.Conversation.HandleSkipExpire | src/vpn_bot.py:1806-1846 | the session and effect are those of `OnSkipExpire`; outside `entering_days`, where the handler is not registered, nothing changes; the four states whose earlier callback handlers take every press are excluded |
| Conversation.Conversation.HandleThresholdInput | src/vpn_bot.py:1378-1409 | the session and effect are those of `OnThreshold` |
| Conversation.Conversation.HandleClientMappingState | src/vpn_bot.py:1072-1100 | the settings file is refreshed by `update_admin_info` before the administrator check; the session and effect are those of `OnMappingInput`, raising when that refresh raises |
| SortedSets.Insert | src/vpn_bot.py:2514 | adding to a sorted duplicate-free list keeps it so, and adds exactly the new element |
| SortedSets.SortedSetOf | src/vpn_bot.py:2553 | `sorted(set(xs))` is strictly sorted and has exactly the elements of `xs` |
| SortedSets.SortedUnique | src/vpn_bot.py:2514 | a strictly sorted list is determined by its elements |
| OnlineClients.StatusLineClient | src/vpn_bot.py:2494-2502 | a reported client is a non-empty unpadded name without `,`, and never `UNDEF` or the header |
| OnlineClients.ScanStatusLog | src/vpn_bot.py:2493-2502 | after a log, the set holds exactly what it held plus the clients some line reports |
| OnlineClients.GetOpenVpnOnlineClients | src/vpn_bot.py:2485-2514 | sorted, without duplicates, and holding exactly the clients some line of some readable log reports |
| OnlineClients.StatusLineReportsClient | src/vpn_bot.py:2494-2502 | the `CLIENT_LIST,<name>,...` line of a connected client reports that name |
| OnlineClients.LiteralHandshakes | src/vpn_bot.py:2517-2530 | empty, `never`, `n/a` and `(none)` in any case mean no handshake; `now` is the current time |
| OnlineClients.SplitLines | src/vpn_bot.py:2535 | `splitlines` gives lines free of line breaks |
| OnlineClients.ParseWireGuardOnlineClients | src/vpn_bot.py:2533-2553 | the result is the sorted set of the names the block scan reports, with a peer's name from the merged name maps and its key otherwise |
| OnlineClients.HandshakeNeedsPeer | src/vpn_bot.py:2546 | before any `peer:` line nothing is reported |
| OnlineClients.PeerLineOpensBlock | src/vpn_bot.py:2543-2545 | a `peer: <key>` line starts a block for that key |
| OnlineClients.HandshakeLineClosesBlock | src/vpn_bot.py:2546-2551 | a handshake line ends the block and reports the peer only when its time parses and is online |
| OnlineClients.BlockReportsPeer | src/vpn_bot.py:2541-2551 | a peer block reports the peer's name (or key) exactly when its handshake is online, and then closes |
| OnlineClients.OfflineBlockReportsNothing | src/vpn_bot.py:2517-2551 | a peer with no handshake, or `never`, `n/a` or `(none)`, is not reported |
| LoadMonitor.ColorByPercent | src/vpn_bot.py:2276-2283 | green below 50 %, yellow from 50 % below 80 %, red from 80 %, each exactly |
| LoadMonitor.ColorMonotone | src/vpn_bot.py:2276-2283 | a higher load never gets a calmer colour |
| LoadMonitor.Monitor.CheckLoad | src/vpn_bot.py:2609-2647 | the attempted alerts and the new `last_load_alerts` are those of one monitor round from the old stamps |
| LoadMonitor.CalmLoadNoAlert | src/vpn_bot.py:2622-2624 | with both loads below their thresholds nobody is alerted and no stamp changes |
| LoadMonitor.AttemptedIff | src/vpn_bot.py:2633-2640 | an administrator is alerted exactly when listed, wanting load alerts and out of cooldown |
| LoadMonitor.StampsAfter | src/vpn_bot.py:2633-2644 | a stamp changes, to the time of the pass, exactly for those alerted successfully |
| LoadMonitor.RoundOutcome | src/vpn_bot.py:2612-2647 | per administrator: alerted iff listed, overloaded, wanting alerts and due; the stamp becomes now iff also delivered |
| LoadMonitor.CooldownSuppressesRepeat | src/vpn_bot.py:2638-2644 | after a delivered alert, a pass within 30 minutes sends that administrator none |
| Formatting.DayWord | src/vpn_bot.py:397-405 | the noun is one of день, дня, дней |
| Formatting.DayWordPeriodic | src/vpn_bot.py:400-405 | the noun depends only on the last two digits |
| Formatting.TeensArePlural | src/vpn_bot.py:400-405 | counts ending in 11 to 14 take дней |
| Formatting.LastDigitDecides | src/vpn_bot.py:400-405 | outside the teens, last digit 1 gives день exactly, 2 to 4 give дня exactly |
| Formatting.FormatDaysWords | src/vpn_bot.py:397-405 | the text is two words, the count and the noun, and the count reads back as the number of days |

## Left out

- File, JSON, subprocess, Telegram and clock I/O: contents, outcomes and times are parameters; a read error other than a missing file is not modelled.
- Universal-newline translation when reading `.env`: the content is taken as text after that translation, so the model splits lines at `\n` only.
- JSON floats and other non-integer JSON numbers; the key order of JSON objects.
- Unicode digits: `isdigit` and `\d` are modelled for ASCII digits only, and `str.lower` for ASCII letters. The comparisons with `now`, `never`, `n/a` and `(none)` are exact, since no other character lowercases to those letters.
- All menus, messages and replies of the aiogram handlers; only the session state and the effects are modelled.
- The handlers for deleting, renaming, sending configs, backups, reboots, services and statistics, and `format_vpn_clients`: the two sides of its merge conflict disagree.
- `parse_relative_time`, the `strptime` parse, `is_peer_online` and `read_wg_config` are parameters of the online-client model (the clock and the name maps).
- Sampling with `psutil` and the monitor's sleep loop: one pass takes the sampled loads as inputs, thresholds as integers, and time in whole seconds. The settings are taken as constant during one pass, although the source reloads them per administrator while sends await.
- `clean_name` in `execute_script` (src/vpn_bot.py:973) is computed but never used, so the model has no counterpart.
- Conversation.NamesChecked: the invariant covers the typed-input handlers modelled here. `handle_client_selection` (src/vpn_bot.py:1418-1427) stores a `client_name` taken from callback data without the name check.
- The mapping regex accepts `[a-zA-Z0-9_-]`, without `.`, while client names allow `.`. A client such as `a.b` cannot be bound through the `id:name` input; the model keeps this as the source has it.
- ClientMapping.SetClientMapping: the first ensures is stated with the corrected `update_env_values`; the code as written agrees only on a file that is empty, ends with a newline or already holds `CLIENT_MAPPING` (second ensures), and otherwise loses the mapping (`SetClientMappingAsWrittenLoses`, see Findings).
- ClientMapping.StoreThenRead: the full read-back holds for the corrected `update_env_values`; for the code as written it holds only on a file it does not glue onto, as above.
- ClientMapping.SetThenGet: stated for the corrected `update_env_values`; the code as written keeps this promise only on a file that is empty, ends with a newline or already holds `CLIENT_MAPPING` (`SetThenGetAsWritten`), and breaks it on other files (`SetClientMappingAsWrittenLoses`).
- Conversation.MappingInputIsStored: the same restriction as `SetThenGet` applies to the code as written (its second ensures).
- ClientMapping.SetThenGet: requires a storable id and name: non-empty, unpadded, without `,` or newline, and an id without `:`. Other values do not survive the serialised form, and the source relies on the regex to exclude them.
- Conversation.RejectionChangesNothing: its clauses are about the typed-input transitions. A `/start`, `/id` or `/client` command text is taken in every state by the handlers at src/vpn_bot.py:1017, 1048 and 1054, which are not modelled. `/start` sets `choosing_option` for an administrator (1033), clears the session when no administrators are configured (1028), shows the client menu and clears the session for a mapped user (1044-1045), and otherwise leaves it. `/id` only replies. `/client` with no argument enters `entering_client_mapping` (1067). With an argument it binds and clears the session when the argument matches (1095, 1099), and otherwise leaves the session. So the session is left unchanged only for rejected texts that are not commands.
- Conversation.OnSkipExpire: requires a state other than `choosing_config_type`, `choosing_protocol`, `choosing_wg_type` and `confirming_rename`. Handlers registered earlier (src/vpn_bot.py:1453, 1560, 1627, 1685) take every callback in those states, a stale skip press included, and those config-sending handlers are not modelled. `Conversation.Conversation.HandleSkipExpire` has the same requires.
- Non-text messages: `message.text` is `None` for a photo or sticker, and `.strip()` raises `AttributeError` before the session changes (src/vpn_bot.py:1086, 1385, 1402, 2027, 2083). The transitions take the text as a string, so this raise is not modelled.
- EnvFile.UpdateThenRead: requires keys and values that fit on one line and that `strip` leaves unchanged. Other values are not read back unchanged by the source either.
- OnlineClients.GetOpenVpnOnlineClients: log lines are given already split, as `for line in f` yields them, with their newlines.

## Findings

| source | as written | input that shows it | evidently intended | confidence | as-written member | corrected member |
|---|---|---|---|---|---|---|
| src/vpn_bot.py:278-287 | `set_client_mapping` writes through `update_env_values` and so inherits the glued append | a `.env` holding `A=1` (no newline) and no `CLIENT_MAPPING`, after `set_client_mapping("123", "vpn")`, becomes `A=1CLIENT_MAPPING=123:vpn\n`, which holds no `CLIENT_MAPPING` and reads back as an empty mapping | the binding `123` → `vpn` reads back | high, not executed | ClientMapping.SetClientMappingAsWrittenLoses | ClientMapping.SetThenGet |
| src/vpn_bot.py:205-207 | a missing key is appended as `key=value\n` right after the last line, even when that line has no final newline | a `.env` holding `A=1` (no newline), updated with `{"B": "2"}`, becomes `A=1B=2\n`, which reads back as `A` = `1B=2` with `B` missing | terminate the last line before appending, so the file reads back as `A=1`, `B=2` | high, not executed | EnvFile.AsWrittenGluesLastLine | EnvFile.UpdateThenRead |
