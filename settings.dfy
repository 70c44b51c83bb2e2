/** The bot's JSON settings file (src/vpn_bot.py:117-154, 217-247, 301-383):
    per-admin records with notification flags, and the CPU/RAM alert
    thresholds.  The file is held as the JSON value it parses to. */
module Settings {
  import opened Wrappers
  import opened Text

  /** A parsed JSON value (numbers other than integers are not modelled). */
  datatype Json =
    | JNull
    | JBool(b: bool)
    | JInt(i: int)
    | JStr(s: string)
    | JList(items: seq<Json>)
    | JObject(fields: map<string, Json>)

  type Object = map<string, Json>

  const AdminsKey: string := "telegram_admins"
  const ClientsKey: string := "telegram_clients"
  const ThresholdsKey: string := "load_thresholds"
  const NotifyKey: string := "notify_enabled"
  const NotifyLoadKey: string := "notify_load_enabled"
  const DisplayNameKey: string := "display_name"
  const UsernameKey: string := "username"
  const CpuKey: string := "cpu"
  const MemoryKey: string := "memory"
  const DefaultCpuAlertThreshold: int := 80
  const DefaultMemoryAlertThreshold: int := 80

  /** Python's `bool(v)`. */
  predicate Truthy(v: Json) {
    match v
    case JNull => false
    case JBool(b) => b
    case JInt(i) => i != 0
    case JStr(s) => s != []
    case JList(items) => items != []
    case JObject(fields) => fields != map[]
  }

  /** `o.get(k) or {}` followed by the `isinstance(..., dict)` fallback: the
      nested object at `k`, or an empty one. */
  function ObjectAt(o: Object, k: string): Object {
    if k in o && o[k].JObject? then o[k].fields else map[]
  }

  /** The settings as `load_settings` returns them: both admin and client
      tables are present and are objects. */
  predicate Normalised(data: Object) {
    && AdminsKey in data && data[AdminsKey].JObject?
    && ClientsKey in data && data[ClientsKey].JObject?
  }

  /** `load_settings()`; `file` is what the settings file parses to, None when
      it is missing, unreadable or not valid JSON. */
  function SettingsOf(file: Option<Json>): (data: Object)
    ensures Normalised(data)
    ensures file.None? || !file.value.JObject? ==>
      data == map[AdminsKey := JObject(map[]), ClientsKey := JObject(map[])]
    ensures file.Some? && file.value.JObject? ==>
      && data.Keys == file.value.fields.Keys + {AdminsKey, ClientsKey}
      && forall k | k in file.value.fields && k != AdminsKey && k != ClientsKey :: data[k] == file.value.fields[k]
  {
    var o := if file.Some? && file.value.JObject? then file.value.fields else map[];
    o[AdminsKey := JObject(ObjectAt(o, AdminsKey))][ClientsKey := JObject(ObjectAt(o, ClientsKey))]
  }

  /** Saving normalised settings and loading them again gives them back. */
  lemma SaveThenLoad(data: Object)
    requires Normalised(data)
    ensures SettingsOf(Some(JObject(data))) == data
  {
    var r := SettingsOf(Some(JObject(data)));
    assert r.Keys == data.Keys;
    forall k | k in data ensures r[k] == data[k] {
      if k == AdminsKey || k == ClientsKey {
        assert ObjectAt(data, k) == data[k].fields;
      }
    }
  }

  function Admins(data: Object): Object {
    ObjectAt(data, AdminsKey)
  }

  function AdminId(userId: int): string {
    IntToString(userId)
  }

  // ---------------------------------------------------------------------
  // Notification flags

  /** `is_admin_notification_enabled` / `is_admin_load_notification_enabled`
      on loaded settings: a missing admin, a malformed entry or a missing
      flag all read as enabled. */
  function AdminFlag(data: Object, userId: int, key: string): (enabled: bool)
    ensures AdminId(userId) !in Admins(data) ==> enabled
    ensures AdminId(userId) in Admins(data) && Admins(data)[AdminId(userId)].JObject? ==>
      var fields := Admins(data)[AdminId(userId)].fields;
      enabled == (key !in fields || Truthy(fields[key]))
    ensures AdminId(userId) in Admins(data) && !Admins(data)[AdminId(userId)].JObject? ==> enabled
  {
    var entry := Get(Admins(data), AdminId(userId)).GetOr(JObject(map[]));
    if !entry.JObject? then true else Truthy(Get(entry.fields, key).GetOr(JBool(true)))
  }

  /** The settings after `set_admin_notification` / `set_admin_load_notification`:
      the flag is written as a boolean into the admin's entry, which is
      created (or replaced, when malformed) as needed. */
  function WithAdminFlag(data: Object, userId: int, key: string, enabled: bool): (r: Object)
    ensures Normalised(data) ==> Normalised(r)
    ensures forall k | k in data && k != AdminsKey :: k in r && r[k] == data[k]
  {
    var admins := Admins(data);
    var id := AdminId(userId);
    var entry := Get(admins, id).GetOr(JObject(map[]));
    var fields := if entry.JObject? then entry.fields else map[];
    data[AdminsKey := JObject(admins[id := JObject(fields[key := JBool(enabled)])])]
  }

  /** After setting a flag, the flag reads back as set; every other flag of
      every admin reads as before. */
  lemma {:induction false} FlagThenQuery(file: Option<Json>, userId: int, key: string, enabled: bool,
                                         otherId: int, otherKey: string)
    ensures var data := SettingsOf(file);
            var after := SettingsOf(Some(JObject(WithAdminFlag(data, userId, key, enabled))));
            && AdminFlag(after, userId, key) == enabled
            && ((otherId, otherKey) != (userId, key) ==> AdminFlag(after, otherId, otherKey) == AdminFlag(data, otherId, otherKey))
  {
    var data := SettingsOf(file);
    var written := WithAdminFlag(data, userId, key, enabled);
    SaveThenLoad(written);
    if otherId != userId {
      if AdminId(otherId) == AdminId(userId) {
        IntToStringInjective(otherId, userId);
      }
    }
  }

  /** The settings menu toggles a flag by writing its negation (src/vpn_bot.py:1236-1241). */
  lemma ToggleFlips(file: Option<Json>, userId: int, key: string)
    ensures var data := SettingsOf(file);
            AdminFlag(SettingsOf(Some(JObject(WithAdminFlag(data, userId, key, !AdminFlag(data, userId, key))))), userId, key)
            == !AdminFlag(data, userId, key)
  {
    var data := SettingsOf(file);
    FlagThenQuery(file, userId, key, !AdminFlag(data, userId, key), userId, key);
  }

  // ---------------------------------------------------------------------
  // Load thresholds

  /** `get_load_thresholds()`: the stored values, each defaulting to 80 when
      the table is missing or not an object or lacks that key. */
  function Thresholds(data: Object): (t: (Json, Json))
    ensures ThresholdsKey !in data ==> t == (JInt(DefaultCpuAlertThreshold), JInt(DefaultMemoryAlertThreshold))
    ensures ThresholdsKey in data && data[ThresholdsKey].JObject? && CpuKey in data[ThresholdsKey].fields ==>
              t.0 == data[ThresholdsKey].fields[CpuKey]
    ensures ThresholdsKey in data && data[ThresholdsKey].JObject? && MemoryKey in data[ThresholdsKey].fields ==>
              t.1 == data[ThresholdsKey].fields[MemoryKey]
    ensures ThresholdsKey !in data || !data[ThresholdsKey].JObject? || CpuKey !in data[ThresholdsKey].fields ==>
              t.0 == JInt(DefaultCpuAlertThreshold)
    ensures ThresholdsKey !in data || !data[ThresholdsKey].JObject? || MemoryKey !in data[ThresholdsKey].fields ==>
              t.1 == JInt(DefaultMemoryAlertThreshold)
  {
    var t := ObjectAt(data, ThresholdsKey);
    (Get(t, CpuKey).GetOr(JInt(DefaultCpuAlertThreshold)), Get(t, MemoryKey).GetOr(JInt(DefaultMemoryAlertThreshold)))
  }

  /** The settings after `set_load_thresholds(cpu, memory)`; an absent
      argument leaves its threshold as it was. */
  function WithThresholds(data: Object, cpu: Option<int>, memory: Option<int>): (r: Object)
    ensures Normalised(data) ==> Normalised(r)
    ensures forall k | k in data && k != ThresholdsKey :: k in r && r[k] == data[k]
  {
    var t := ObjectAt(data, ThresholdsKey);
    var t1 := if cpu.Some? then t[CpuKey := JInt(cpu.value)] else t;
    var t2 := if memory.Some? then t1[MemoryKey := JInt(memory.value)] else t1;
    data[ThresholdsKey := JObject(t2)]
  }

  /** A fresh installation alerts at 80% CPU and 80% RAM. */
  lemma DefaultThresholds()
    ensures Thresholds(SettingsOf(None)) == (JInt(80), JInt(80))
  {
    assert ThresholdsKey !in SettingsOf(None) by {
      assert ThresholdsKey != AdminsKey && ThresholdsKey != ClientsKey;
    }
  }

  /** Setting one threshold and reading both back gives the new value for it
      and the old value for the other. */
  lemma SetThenGetThresholds(file: Option<Json>, cpu: Option<int>, memory: Option<int>)
    ensures var data := SettingsOf(file);
            var after := SettingsOf(Some(JObject(WithThresholds(data, cpu, memory))));
            && Thresholds(after).0 == (if cpu.Some? then JInt(cpu.value) else Thresholds(data).0)
            && Thresholds(after).1 == (if memory.Some? then JInt(memory.value) else Thresholds(data).1)
            && Admins(after) == Admins(data)
  {
    var data := SettingsOf(file);
    var written := WithThresholds(data, cpu, memory);
    assert ThresholdsKey != AdminsKey && ThresholdsKey != ClientsKey;
    SaveThenLoad(written);
  }

  // ---------------------------------------------------------------------
  // Admin records

  /** The parts of a Telegram user the bot stores. */
  datatype User = User(id: int, firstName: string, lastName: Option<string>, username: Option<string>)

  /** `" ".join(part for part in [first_name, last_name] if part).strip()`. */
  function DisplayName(u: User): string {
    var last := u.lastName.GetOr("");
    var parts := (if u.firstName != [] then [u.firstName] else []) + (if last != [] then [last] else []);
    Strip(Join(" ", parts))
  }

  /** `(username or "").strip()`. */
  function Username(u: User): string {
    Strip(u.username.GetOr(""))
  }

  /** The settings after `update_admin_info(user)`, or None when the stored
      entry for this admin is not an object (the `existing.get` call then
      raises and nothing is saved).  The new entry has exactly four fields:
      the fresh name and username (or the stored ones when the fresh ones are
      empty) and the stored notification flags (or `true`). */
  function AdminInfoMerged(data: Object, u: User): (r: Option<Object>)
    ensures r.None? <==> AdminId(u.id) in Admins(data) && !Admins(data)[AdminId(u.id)].JObject?
    ensures Normalised(data) && r.Some? ==> Normalised(r.value)
  {
    var admins := Admins(data);
    var id := AdminId(u.id);
    var existing := Get(admins, id).GetOr(JObject(map[]));
    if !existing.JObject? then None
    else
      var ex := existing.fields;
      var name := DisplayName(u);
      var uname := Username(u);
      var entry := map[
        DisplayNameKey := if name != [] then JStr(name) else Get(ex, DisplayNameKey).GetOr(JStr("")),
        UsernameKey := if uname != [] then JStr(uname) else Get(ex, UsernameKey).GetOr(JStr("")),
        NotifyKey := Get(ex, NotifyKey).GetOr(JBool(true)),
        NotifyLoadKey := Get(ex, NotifyLoadKey).GetOr(JBool(true))];
      Some(data[AdminsKey := JObject(admins[id := JObject(entry)])])
  }

  /** Whether `update_admin_info(user)` raises on this settings file. */
  predicate AdminInfoRaises(file: Option<Json>, user: Option<User>) {
    user.Some? && AdminInfoMerged(SettingsOf(file), user.value).None?
  }

  /** The settings file after `update_admin_info(user)`: unchanged without a
      user or when the call raises, and otherwise the merged settings. */
  function AdminInfoFile(file: Option<Json>, user: Option<User>): (r: Option<Json>)
    ensures AdminInfoRaises(file, user) || user.None? ==> r == file
    ensures user.Some? && !AdminInfoRaises(file, user) ==>
              r.Some? && r.value.JObject? && SettingsOf(r) == r.value.fields
              && var admins := Admins(r.value.fields);
                 AdminId(user.value.id) in admins && admins[AdminId(user.value.id)].JObject?
  {
    if user.None? then file
    else match AdminInfoMerged(SettingsOf(file), user.value)
      case None => file
      case Some(data) =>
        SaveThenLoad(data);
        Some(JObject(data))
  }

  /** Refreshing an admin's name never changes any notification flag, and
      other admins' entries are untouched. */
  lemma AdminInfoKeepsFlags(file: Option<Json>, u: User, userId: int, key: string)
    requires key == NotifyKey || key == NotifyLoadKey
    requires AdminInfoMerged(SettingsOf(file), u).Some?
    ensures var data := SettingsOf(file);
            var after := SettingsOf(Some(JObject(AdminInfoMerged(data, u).value)));
            && AdminFlag(after, userId, key) == AdminFlag(data, userId, key)
            && (userId != u.id ==> Get(Admins(after), AdminId(userId)) == Get(Admins(data), AdminId(userId)))
  {
    var data := SettingsOf(file);
    var written := AdminInfoMerged(data, u).value;
    SaveThenLoad(written);
    if userId != u.id && AdminId(userId) == AdminId(u.id) {
      IntToStringInjective(userId, u.id);
    }
  }

  /** The stored display name is the fresh one when the user has one, and
      otherwise the one stored before (or empty). */
  lemma AdminInfoName(file: Option<Json>, u: User)
    requires AdminInfoMerged(SettingsOf(file), u).Some?
    ensures var data := SettingsOf(file);
            var after := SettingsOf(Some(JObject(AdminInfoMerged(data, u).value)));
            var id := AdminId(u.id);
            && id in Admins(after) && Admins(after)[id].JObject?
            && var entry := Admins(after)[id].fields;
               && entry.Keys == {DisplayNameKey, UsernameKey, NotifyKey, NotifyLoadKey}
               && (DisplayName(u) != [] ==> entry[DisplayNameKey] == JStr(DisplayName(u)))
               && (DisplayName(u) == [] && id in Admins(data) ==>
                     entry[DisplayNameKey] == Get(Admins(data)[id].fields, DisplayNameKey).GetOr(JStr("")))
  {
    var data := SettingsOf(file);
    SaveThenLoad(AdminInfoMerged(data, u).value);
  }

  // ---------------------------------------------------------------------
  // The settings file

  /** The settings file; `file` is what it parses to, None when it is
      missing or not valid JSON. */
  class SettingsStore {
    var file: Option<Json>

    constructor (file: Option<Json>)
      ensures this.file == file
    {
      this.file := file;
    }

    /** `load_settings()`. */
    method Load() returns (data: Object)
      ensures data == SettingsOf(file)
    {
      var o: Object := map[];
      if file.Some? && file.value.JObject? {
        o := file.value.fields;
      }
      if AdminsKey !in o || !o[AdminsKey].JObject? {
        o := o[AdminsKey := JObject(map[])];
      }
      if ClientsKey !in o || !o[ClientsKey].JObject? {
        o := o[ClientsKey := JObject(map[])];
      }
      data := o;
    }

    /** `save_settings(data)`. */
    method Save(data: Object)
      modifies this
      ensures file == Some(JObject(data))
    {
      file := Some(JObject(data));
    }

    /** `is_admin_notification_enabled(user_id)`. */
    method IsAdminNotificationEnabled(userId: int) returns (enabled: bool)
      ensures enabled == AdminFlag(SettingsOf(file), userId, NotifyKey)
    {
      var data := Load();
      enabled := AdminFlag(data, userId, NotifyKey);
    }

    /** `is_admin_load_notification_enabled(user_id)`. */
    method IsAdminLoadNotificationEnabled(userId: int) returns (enabled: bool)
      ensures enabled == AdminFlag(SettingsOf(file), userId, NotifyLoadKey)
    {
      var data := Load();
      enabled := AdminFlag(data, userId, NotifyLoadKey);
    }

    /** The body shared by `set_admin_notification` and
        `set_admin_load_notification`. */
    method SetAdminFlag(userId: int, key: string, enabled: bool)
      modifies this
      ensures file == Some(JObject(WithAdminFlag(old(SettingsOf(file)), userId, key, enabled)))
    {
      var data := Load();
      var adminMap := Admins(data);
      var id := AdminId(userId);
      var adminEntry: Object := map[];
      if id in adminMap && adminMap[id].JObject? {
        adminEntry := adminMap[id].fields;
      }
      adminEntry := adminEntry[key := JBool(enabled)];
      adminMap := adminMap[id := JObject(adminEntry)];
      data := data[AdminsKey := JObject(adminMap)];
      Save(data);
    }

    method SetAdminNotification(userId: int, enabled: bool)
      modifies this
      ensures file == Some(JObject(WithAdminFlag(old(SettingsOf(file)), userId, NotifyKey, enabled)))
    {
      SetAdminFlag(userId, NotifyKey, enabled);
    }

    method SetAdminLoadNotification(userId: int, enabled: bool)
      modifies this
      ensures file == Some(JObject(WithAdminFlag(old(SettingsOf(file)), userId, NotifyLoadKey, enabled)))
    {
      SetAdminFlag(userId, NotifyLoadKey, enabled);
    }

    /** `get_load_thresholds()`. */
    method GetLoadThresholds() returns (cpu: Json, memory: Json)
      ensures (cpu, memory) == Thresholds(SettingsOf(file))
    {
      var data := Load();
      var thresholds := ObjectAt(data, ThresholdsKey);
      cpu := Get(thresholds, CpuKey).GetOr(JInt(DefaultCpuAlertThreshold));
      memory := Get(thresholds, MemoryKey).GetOr(JInt(DefaultMemoryAlertThreshold));
    }

    /** `set_load_thresholds(cpu_threshold, memory_threshold)`. */
    method SetLoadThresholds(cpu: Option<int>, memory: Option<int>)
      modifies this
      ensures file == Some(JObject(WithThresholds(old(SettingsOf(file)), cpu, memory)))
    {
      var data := Load();
      var thresholds := ObjectAt(data, ThresholdsKey);
      if cpu.Some? {
        thresholds := thresholds[CpuKey := JInt(cpu.value)];
      }
      if memory.Some? {
        thresholds := thresholds[MemoryKey := JInt(memory.value)];
      }
      data := data[ThresholdsKey := JObject(thresholds)];
      Save(data);
    }

    /** `update_admin_info(user)`: nothing happens without a user; `raised`
        reports the exception thrown when the stored entry is malformed, in
        which case the file is left as it was. */
    method UpdateAdminInfo(user: Option<User>) returns (raised: bool)
      modifies this
      ensures raised == AdminInfoRaises(old(file), user) && file == AdminInfoFile(old(file), user)
      ensures user.None? ==> !raised && file == old(file)
      ensures user.Some? ==>
        match AdminInfoMerged(old(SettingsOf(file)), user.value)
        case None => raised && file == old(file)
        case Some(data) => !raised && file == Some(JObject(data))
    {
      raised := false;
      if user.None? {
        return;
      }
      var u := user.value;
      var data := Load();
      var adminMap := Admins(data);
      var id := AdminId(u.id);
      var existing := if id in adminMap then adminMap[id] else JObject(map[]);
      if !existing.JObject? {
        raised := true;
        return;
      }
      var displayName := DisplayName(u);
      var username := Username(u);
      var ex := existing.fields;
      var name := if displayName != [] then JStr(displayName) else Get(ex, DisplayNameKey).GetOr(JStr(""));
      var uname := if username != [] then JStr(username) else Get(ex, UsernameKey).GetOr(JStr(""));
      var notifyEnabled := Get(ex, NotifyKey).GetOr(JBool(true));
      var notifyLoadEnabled := Get(ex, NotifyLoadKey).GetOr(JBool(true));
      adminMap := adminMap[id := JObject(map[DisplayNameKey := name, UsernameKey := uname,
                                             NotifyKey := notifyEnabled, NotifyLoadKey := notifyLoadEnabled])];
      data := data[AdminsKey := JObject(adminMap)];
      Save(data);
    }
  }
}
