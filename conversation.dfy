/** The typed-input steps of the bot's conversations: a per-user session of
    a state (src/vpn_bot.py:422-451) and a scratch dict, and the handlers that
    validate a message before they change the session or call out
    (src/vpn_bot.py:1072-1100, 1378-1409, 1806-1846, 2023-2122). */
module Conversation {
  import opened Wrappers
  import opened Text
  import opened Validation
  import opened Gateway
  import opened Dicts
  import opened EnvFile
  import opened ClientMapping
  import Settings

  /** The states of `VPNSetup`. */
  datatype State =
    | ChoosingOption
    | EnteringClientName
    | EnteringDays
    | DeletingClient
    | ListForDelete
    | ChoosingConfigType
    | ChoosingProtocol
    | ChoosingWgType
    | ConfirmingRename
    | EnteringClientMapping
    | EnteringCpuThreshold
    | EnteringMemoryThreshold

  /** A session: the current state (None once cleared) and the scratch
      values stored with `update_data`. */
  datatype Session = Session(state: Option<State>, data: map<string, string>)

  const Cleared: Session := Session(None, map[])

  const ActionKey: string := "action"
  const ClientNameKey: string := "client_name"
  const DefaultDays: string := "1825"

  /** What a handler does outside the session. */
  datatype Effect =
    | NoEffect
    | RunScript(option: string, clientName: string, days: Option<string>)
    | WriteThresholds(cpu: Option<int>, memory: Option<int>)
    | StoreMapping(telegramId: string, clientName: string)

  /** A handler's result: the new session, the effect, and whether it ended
      with an uncaught `KeyError` (the session is then left as it was). */
  datatype Step = Step(next: Session, effect: Effect, raised: bool)

  function Unchanged(s: Session): Step {
    Step(s, NoEffect, false)
  }

  // ---------------------------------------------------------------------
  // The handlers as transitions

  /** The "1" (new OpenVPN client) and "4" (new WireGuard client) buttons
      of the administrators' menu: remember the option and ask for a name. */
  function OnCreateChosen(s: Session, option: string): Step
    requires option == "1" || option == "4"
  {
    Step(Session(Some(EnteringClientName), s.data[ActionKey := option]), NoEffect, false)
  }

  /** `handle_client_name`: a valid name is stored; option 1 (OpenVPN) then
      asks for the days, any other option creates the client at once and
      ends the session.  `infoRaised` says whether the leading
      `update_admin_info` call raised, which ends the handler before the
      text is looked at.  Without an `action` in the scratch dict the lookup
      raises. */
  function OnClientName(s: Session, infoRaised: bool, text: string): Step {
    var name := Strip(text);
    if infoRaised then Step(s, NoEffect, true)
    else if !ClientNameMatches(name) then Unchanged(s)
    else if ActionKey !in s.data then Step(s, NoEffect, true)
    else
      var option := s.data[ActionKey];
      if option == "1" then Step(Session(Some(EnteringDays), s.data[ClientNameKey := name]), NoEffect, false)
      else Step(Cleared, RunScript(option, name, None), false)
  }

  /** `handle_days`: valid days create the OpenVPN client with the stored
      name and end the session; like `handle_client_name` it first calls
      `update_admin_info`, whose exception (`infoRaised`) ends it. */
  function OnDays(s: Session, infoRaised: bool, text: string): Step {
    var days := Strip(text);
    if infoRaised then Step(s, NoEffect, true)
    else if !DaysAccepted(days) then Unchanged(s)
    else if ClientNameKey !in s.data then Step(s, NoEffect, true)
    else Step(Cleared, RunScript("1", s.data[ClientNameKey], Some(days)), false)
  }

  /** The states whose callback handlers, registered before
      `handle_skip_expire`, take every button press (src/vpn_bot.py:1453,
      1560, 1627, 1685).  They send configuration files and are not part of
      this model. */
  predicate CatchesEveryCallback(state: Option<State>) {
    state == Some(ChoosingConfigType) || state == Some(ChoosingProtocol)
    || state == Some(ChoosingWgType) || state == Some(ConfirmingRename)
  }

  /** `handle_skip_expire`: creates the OpenVPN client with the default
      1825 days.  The handler is registered for the `entering_days` state
      only (src/vpn_bot.py:1806), so its own state check never fails.  In a
      state without a catch-all callback handler the press reaches either
      this handler or none that touches the session (the administrators'
      `handle_callback_query` has no branch for it). */
  function OnSkipExpire(s: Session, isAdmin: bool): Step
    requires !CatchesEveryCallback(s.state)
  {
    if s.state != Some(EnteringDays) then Unchanged(s)
    else if !isAdmin then Unchanged(s)
    else if ClientNameKey !in s.data then Step(s, NoEffect, true)
    else
      var name := s.data[ClientNameKey];
      if name == [] || Get(s.data, ActionKey) != Some("1") then Step(Cleared, NoEffect, false)
      else Step(Cleared, RunScript("1", name, Some(DefaultDays)), false)
  }

  /** `handle_cpu_threshold_input` (`memory` false) and
      `handle_memory_threshold_input` (`memory` true). */
  function OnThreshold(s: Session, isAdmin: bool, memory: bool, text: string): Step {
    if !isAdmin then Step(Cleared, NoEffect, false)
    else
      var value := Strip(text);
      if !ThresholdAccepted(value) then Unchanged(s)
      else
        var n := DigitsValue(value);
        Step(Cleared, if memory then WriteThresholds(None, Some(n)) else WriteThresholds(Some(n), None), false)
  }

  /** `handle_client_mapping_state` with `process_client_mapping`; the
      leading `update_admin_info` runs before the administrator check. */
  function OnMappingInput(s: Session, infoRaised: bool, isAdmin: bool, text: string): Step {
    if infoRaised then Step(s, NoEffect, true)
    else if !isAdmin then Step(Cleared, NoEffect, false)
    else
      match MatchMapping(Strip(text))
      case None => Unchanged(s)
      case Some((id, name)) => Step(Cleared, StoreMapping(id, name), false)
  }

  // ---------------------------------------------------------------------
  // What the transitions promise

  /** Rejected input leaves the session as it was and does nothing (it
      raises only when `update_admin_info` did); so does the skip button
      outside `entering_days`. */
  lemma RejectionChangesNothing(s: Session, infoRaised: bool, isAdmin: bool, text: string)
    ensures !ClientNameMatches(Strip(text)) ==> OnClientName(s, infoRaised, text) == Step(s, NoEffect, infoRaised)
    ensures !DaysAccepted(Strip(text)) ==> OnDays(s, infoRaised, text) == Step(s, NoEffect, infoRaised)
    ensures !ThresholdAccepted(Strip(text)) ==>
              OnThreshold(s, true, false, text) == Unchanged(s) && OnThreshold(s, true, true, text) == Unchanged(s)
    ensures MatchMapping(Strip(text)).None? ==> OnMappingInput(s, infoRaised, true, text) == Step(s, NoEffect, infoRaised)
    ensures !CatchesEveryCallback(s.state) && s.state != Some(EnteringDays) ==> OnSkipExpire(s, isAdmin) == Unchanged(s)
  {
  }

  /** A failing `update_admin_info` or a missing scratch value makes the
      handler raise; it then changes and calls nothing. */
  lemma RaisingChangesNothing(s: Session, infoRaised: bool, text: string, isAdmin: bool)
    ensures infoRaised ==> OnClientName(s, infoRaised, text).raised && OnDays(s, infoRaised, text).raised
                           && OnMappingInput(s, infoRaised, isAdmin, text).raised
    ensures OnClientName(s, infoRaised, text).raised ==> OnClientName(s, infoRaised, text) == Step(s, NoEffect, true)
    ensures OnDays(s, infoRaised, text).raised ==> OnDays(s, infoRaised, text) == Step(s, NoEffect, true)
    ensures !CatchesEveryCallback(s.state) && OnSkipExpire(s, isAdmin).raised ==>
              OnSkipExpire(s, isAdmin) == Step(s, NoEffect, true)
    ensures OnMappingInput(s, infoRaised, isAdmin, text).raised ==>
              OnMappingInput(s, infoRaised, isAdmin, text) == Step(s, NoEffect, true)
  {
  }

  /** A session where any stored client name passed the name check. */
  predicate NamesChecked(s: Session) {
    ClientNameKey in s.data ==> NameBody(s.data[ClientNameKey])
  }

  /** The name step keeps the stored name checked, and a script call it
      makes carries a checked name and no days. */
  lemma ClientNameStepChecked(s: Session, infoRaised: bool, text: string)
    requires NamesChecked(s)
    ensures var r := OnClientName(s, infoRaised, text);
            NamesChecked(r.next) && (r.effect.RunScript? ==> NameBody(r.effect.clientName) && r.effect.days.None?)
  {
    StripIsStripped(text);
    StrippedNameMatches(Strip(text));
  }

  /** The days step calls the script only with the checked stored name and
      days in 1..1825. */
  lemma DaysStepChecked(s: Session, infoRaised: bool, text: string)
    requires NamesChecked(s)
    ensures var r := OnDays(s, infoRaised, text);
            NamesChecked(r.next) && (r.effect.RunScript? ==>
              NameBody(r.effect.clientName) && r.effect.days.Some? && DaysAccepted(r.effect.days.value))
  {
  }

  /** The default of 1825 days is itself an accepted number of days. */
  lemma DefaultDaysAccepted()
    ensures DaysAccepted(DefaultDays)
  {
    assert DefaultDays == NatToString(1825) by {
      assert NatToString(1825) == NatToString(182) + ['5'];
      assert NatToString(182) == NatToString(18) + ['2'];
      assert NatToString(18) == NatToString(1) + ['8'];
    }
    DaysAcceptedRange(1825);
  }

  /** Skipping the days calls the script only with the checked stored name
      and the accepted default. */
  lemma SkipExpireStepChecked(s: Session, isAdmin: bool)
    requires NamesChecked(s) && !CatchesEveryCallback(s.state)
    ensures var r := OnSkipExpire(s, isAdmin);
            NamesChecked(r.next) && (r.effect.RunScript? ==>
              NameBody(r.effect.clientName) && r.effect.days.Some? && DaysAccepted(r.effect.days.value))
  {
    DefaultDaysAccepted();
  }

  /** A threshold write carries the one value typed, in 1..100, for the
      resource being edited, and leaves the other one alone. */
  lemma ThresholdStepChecked(s: Session, isAdmin: bool, memory: bool, text: string)
    requires NamesChecked(s)
    ensures var r := OnThreshold(s, isAdmin, memory, text);
            && NamesChecked(r.next)
            && (r.effect.WriteThresholds? ==>
                  && ThresholdAccepted(Strip(text))
                  && (if memory then r.effect.cpu.None? && r.effect.memory == Some(DigitsValue(Strip(text)))
                      else r.effect.memory.None? && r.effect.cpu == Some(DigitsValue(Strip(text))))
                  && 1 <= DigitsValue(Strip(text)) <= MaxThreshold)
  {
  }

  /** A mapping write carries a pair the stored mapping keeps unchanged:
      a non-empty unpadded id and name without separators or line breaks. */
  lemma MappingStepChecked(s: Session, infoRaised: bool, isAdmin: bool, text: string)
    requires NamesChecked(s)
    ensures var r := OnMappingInput(s, infoRaised, isAdmin, text);
            NamesChecked(r.next) && (r.effect.StoreMapping? ==>
              MappingId(r.effect.telegramId) && MappingName(r.effect.clientName))
  {
    if !infoRaised && isAdmin && MatchMapping(Strip(text)).Some? {
      MatchedPairIsStorable(Strip(text));
    }
  }

  /** After an administrator's accepted `id:name` line is written with
      `set_client_mapping`, the mapping read back from the file is the old
      one with that id now bound to that name; the code as written does the
      same on a file it does not glue onto. */
  lemma MappingInputIsStored(s: Session, text: string, content: string)
    requires OnMappingInput(s, false, true, text).effect.StoreMapping?
    ensures var e := OnMappingInput(s, false, true, text).effect;
            var d := Put(ClientMapping.ClientMapping(content), e.telegramId, e.clientName);
            var written := Concat(UpdatedLines(ReadLines(content), [(ClientMappingKey, Serialize(d))]));
            ToMap(ClientMapping.ClientMapping(written)) == ToMap(ClientMapping.ClientMapping(content))[e.telegramId := e.clientName]
    ensures var e := OnMappingInput(s, false, true, text).effect;
            var d := Put(ClientMapping.ClientMapping(content), e.telegramId, e.clientName);
            var written := Concat(UpdatedLinesAsWritten(ReadLines(content), [(ClientMappingKey, Serialize(d))]));
            AppendsCleanly(content) ==>
              ToMap(ClientMapping.ClientMapping(written)) == ToMap(ClientMapping.ClientMapping(content))[e.telegramId := e.clientName]
  {
    MatchedPairIsStorable(Strip(text));
    var e := OnMappingInput(s, false, true, text).effect;
    SetThenGet(content, e.telegramId, e.clientName);
    if AppendsCleanly(content) {
      SetThenGetAsWritten(content, e.telegramId, e.clientName);
    }
  }

  /** A creation call made with checked input reaches the script as exactly
      the intended words: script, option, client name and, for OpenVPN,
      the days. */
  lemma ScriptCallWords(scriptPath: string, option: string, name: string, days: Option<string>)
    requires ' ' !in scriptPath && (option == "1" || option == "4") && NameBody(name)
    requires days.Some? ==> DaysAccepted(days.value)
    ensures Split(Command(scriptPath, option, Some(name), days), ' ')
            == [scriptPath, option, name] + (if option == "1" && days.Some? then [days.value] else [])
  {
    assert ' ' !in name by {
      assert forall i :: 0 <= i < |name| ==> NameChar(name[i]);
    }
    if days.Some? {
      AcceptedDaysAreOneWord(days.value);
    }
    assert option !in NamelessOptions by {
      assert NamelessOptions[0] != option && NamelessOptions[1] != option;
    }
    assert Arguments(scriptPath, option, Some(name), days)
           == [scriptPath, option, name] + (if option == "1" && days.Some? then [days.value] else []);
    CommandWords(scriptPath, option, Some(name), days);
  }

  /** The OpenVPN dialogue: after the "1" button, a valid name and then
      either valid days or the skip button create exactly that client with
      those days (1825 when skipped), as long as `update_admin_info` does
      not raise. */
  lemma OpenVpnDialogue(s: Session, nameText: string, daysText: string)
    requires ClientNameMatches(Strip(nameText)) && DaysAccepted(Strip(daysText))
    ensures var named := OnClientName(OnCreateChosen(s, "1").next, false, nameText);
            && named.effect == NoEffect && named.next.state == Some(EnteringDays)
            && OnDays(named.next, false, daysText) == Step(Cleared, RunScript("1", Strip(nameText), Some(Strip(daysText))), false)
            && OnSkipExpire(named.next, true) == Step(Cleared, RunScript("1", Strip(nameText), Some(DefaultDays)), false)
  {
    StripIsStripped(nameText);
    StrippedNameMatches(Strip(nameText));
  }

  /** The WireGuard dialogue: after the "4" button a valid name creates
      that client at once, without days, and ends the session. */
  lemma WireGuardDialogue(s: Session, nameText: string)
    requires ClientNameMatches(Strip(nameText))
    ensures OnClientName(OnCreateChosen(s, "4").next, false, nameText) == Step(Cleared, RunScript("4", Strip(nameText), None), false)
  {
  }

  // ---------------------------------------------------------------------
  // The session object

  /** The FSM context of one chat. */
  class Conversation {
    var state: Option<State>
    var data: map<string, string>

    constructor ()
      ensures state == None && data == map[]
    {
      state := None;
      data := map[];
    }

    function Current(): Session
      reads this
    {
      Session(state, data)
    }

    /** `state.clear()`. */
    method Clear()
      modifies this
      ensures Current() == Cleared
    {
      state := None;
      data := map[];
    }

    method ChooseCreate(option: string)
      requires option == "1" || option == "4"
      modifies this
      ensures Step(Current(), NoEffect, false) == OnCreateChosen(old(Current()), option)
    {
      data := data[ActionKey := option];
      state := Some(EnteringClientName);
    }

    /** `handle_client_name` for a message from `user`; `store` is the
        settings file `update_admin_info` rewrites. */
    method HandleClientName(store: Settings.SettingsStore, user: Option<Settings.User>, text: string)
      returns (effect: Effect, raised: bool)
      modifies this, store
      ensures store.file == Settings.AdminInfoFile(old(store.file), user)
      ensures Step(Current(), effect, raised)
              == OnClientName(old(Current()), Settings.AdminInfoRaises(old(store.file), user), text)
    {
      effect := NoEffect;
      raised := store.UpdateAdminInfo(user);
      if raised {
        return;
      }
      var clientName := Strip(text);
      if !ClientNameMatches(clientName) {
        return;
      }
      if ActionKey !in data {
        raised := true;
        return;
      }
      var option := data[ActionKey];
      data := data[ClientNameKey := clientName];
      if option == "1" {
        state := Some(EnteringDays);
      } else {
        effect := RunScript(option, clientName, None);
        Clear();
      }
    }

    /** `handle_days` for a message from `user`. */
    method HandleDays(store: Settings.SettingsStore, user: Option<Settings.User>, text: string)
      returns (effect: Effect, raised: bool)
      modifies this, store
      ensures store.file == Settings.AdminInfoFile(old(store.file), user)
      ensures Step(Current(), effect, raised)
              == OnDays(old(Current()), Settings.AdminInfoRaises(old(store.file), user), text)
    {
      effect := NoEffect;
      raised := store.UpdateAdminInfo(user);
      if raised {
        return;
      }
      var days := Strip(text);
      if !DaysAccepted(days) {
        return;
      }
      if ClientNameKey !in data {
        raised := true;
        return;
      }
      effect := RunScript("1", data[ClientNameKey], Some(days));
      Clear();
    }

    method HandleSkipExpire(isAdmin: bool) returns (effect: Effect, raised: bool)
      requires !CatchesEveryCallback(state)
      modifies this
      ensures Step(Current(), effect, raised) == OnSkipExpire(old(Current()), isAdmin)
    {
      effect, raised := NoEffect, false;
      if state != Some(EnteringDays) || !isAdmin {
        return;
      }
      if ClientNameKey !in data {
        raised := true;
        return;
      }
      var clientName := data[ClientNameKey];
      var option := Get(data, ActionKey);
      if clientName == [] || option != Some("1") {
        Clear();
        return;
      }
      effect := RunScript("1", clientName, Some(DefaultDays));
      Clear();
    }

    method HandleThresholdInput(isAdmin: bool, memory: bool, text: string) returns (effect: Effect)
      modifies this
      ensures Step(Current(), effect, false) == OnThreshold(old(Current()), isAdmin, memory, text)
    {
      effect := NoEffect;
      if !isAdmin {
        Clear();
        return;
      }
      var value := Strip(text);
      if !ThresholdAccepted(value) {
        return;
      }
      var n := DigitsValue(value);
      effect := if memory then WriteThresholds(None, Some(n)) else WriteThresholds(Some(n), None);
      Clear();
    }

    /** `handle_client_mapping_state` for a message from `user`. */
    method HandleClientMappingState(store: Settings.SettingsStore, user: Option<Settings.User>, isAdmin: bool,
                                    text: string) returns (effect: Effect, raised: bool)
      modifies this, store
      ensures store.file == Settings.AdminInfoFile(old(store.file), user)
      ensures Step(Current(), effect, raised)
              == OnMappingInput(old(Current()), Settings.AdminInfoRaises(old(store.file), user), isAdmin, text)
    {
      effect := NoEffect;
      raised := store.UpdateAdminInfo(user);
      if raised {
        return;
      }
      if !isAdmin {
        Clear();
        return;
      }
      var payload := Strip(text);
      var m := MatchMapping(payload);
      if m.None? {
        return;
      }
      effect := StoreMapping(m.value.0, m.value.1);
      Clear();
    }
  }
}
