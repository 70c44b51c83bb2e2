/** One round of `monitor_server_load` (src/vpn_bot.py:2609-2647): when CPU
    or RAM reaches its threshold, every administrator who wants load alerts
    and has not had one in the last 30 minutes is sent one, and the time of
    each successful alert is remembered in `last_load_alerts`
    (src/vpn_bot.py:108-109).  Sampling the load, the clock and sending a
    message are foreign; their results are parameters. */
module LoadMonitor {
  import opened Wrappers
  import opened Settings

  const LoadAlertCooldown: int := 30 * 60

  /** `get_color_by_percent`: green below 50 %, yellow below 80 %, red
      from 80 % on. */
  function ColorByPercent(percent: real): (mark: string)
    ensures mark == "🟢" <==> percent < 50.0
    ensures mark == "🟡" <==> 50.0 <= percent < 80.0
    ensures mark == "🔴" <==> 80.0 <= percent
  {
    if percent < 50.0 then "🟢"
    else if percent < 80.0 then "🟡"
    else "🔴"
  }

  /** A higher load never gets a calmer colour. */
  lemma ColorMonotone(p: real, q: real)
    requires p <= q
    ensures ColorByPercent(p) == "🔴" ==> ColorByPercent(q) == "🔴"
    ensures ColorByPercent(q) == "🟢" ==> ColorByPercent(p) == "🟢"
  {
  }

  /** The alert condition: not both loads below their thresholds. */
  predicate Overloaded(cpu: real, memory: real, cpuThreshold: int, memoryThreshold: int) {
    !(cpu < cpuThreshold as real && memory < memoryThreshold as real)
  }

  /** Both of the administrator's notification switches are on. */
  predicate WantsLoadAlerts(data: Object, admin: int) {
    AdminFlag(data, admin, NotifyKey) && AdminFlag(data, admin, NotifyLoadKey)
  }

  /** `last_load_alerts.get(admin, 0)`. */
  function LastSent(stamps: map<int, int>, admin: int): int {
    Get(stamps, admin).GetOr(0)
  }

  /** The cooldown since the administrator's last alert has run out. */
  predicate Due(stamps: map<int, int>, admin: int, now: int) {
    now - LastSent(stamps, admin) >= LoadAlertCooldown
  }

  /** The alert stamps and the administrators an alert was sent to (or
      tried to be), in the order of `ADMIN_ID`. */
  datatype Round = Round(stamps: map<int, int>, attempted: seq<int>)

  /** The loop body for one administrator; `sent` says whether sending to
      an administrator succeeds. */
  function AlertAdmin(r: Round, admin: int, data: Object, now: int, sent: int -> bool): Round {
    if !WantsLoadAlerts(data, admin) || !Due(r.stamps, admin, now) then r
    else Round(if sent(admin) then r.stamps[admin := now] else r.stamps, r.attempted + [admin])
  }

  function AlertAdmins(r: Round, admins: seq<int>, data: Object, now: int, sent: int -> bool): Round
    decreases |admins|
  {
    if admins == [] then r else AlertAdmins(AlertAdmin(r, admins[0], data, now, sent), admins[1..], data, now, sent)
  }

  /** One pass of the monitor's loop after the load was sampled. */
  function MonitorRound(stamps: map<int, int>, admins: seq<int>, cpu: real, memory: real,
                        cpuThreshold: int, memoryThreshold: int, data: Object, now: int, sent: int -> bool): Round
  {
    if admins == [] || !Overloaded(cpu, memory, cpuThreshold, memoryThreshold) then Round(stamps, [])
    else AlertAdmins(Round(stamps, []), admins, data, now, sent)
  }

  /** The monitor's state: `last_load_alerts`. */
  class Monitor {
    var lastLoadAlerts: map<int, int>

    constructor ()
      ensures lastLoadAlerts == map[]
    {
      lastLoadAlerts := map[];
    }

    /** One pass of `monitor_server_load` with the sampled loads, the
        thresholds `get_load_thresholds` gave, the loaded settings and the
        time of the pass. */
    method CheckLoad(adminIds: seq<int>, cpu: real, memory: real, cpuThreshold: int, memoryThreshold: int,
                     data: Object, now: int, sent: int -> bool)
      returns (attempted: seq<int>)
      modifies this
      ensures Round(lastLoadAlerts, attempted)
              == MonitorRound(old(lastLoadAlerts), adminIds, cpu, memory, cpuThreshold, memoryThreshold, data, now, sent)
    {
      attempted := [];
      if adminIds == [] {
        return;
      }
      if cpu < cpuThreshold as real && memory < memoryThreshold as real {
        return;
      }
      for i := 0 to |adminIds|
        invariant AlertAdmins(Round(lastLoadAlerts, attempted), adminIds[i..], data, now, sent)
                  == AlertAdmins(Round(old(lastLoadAlerts), []), adminIds, data, now, sent)
      {
        var admin := adminIds[i];
        assert adminIds[i..][1..] == adminIds[i + 1..];
        if !AdminFlag(data, admin, NotifyKey) {
          continue;
        }
        if !AdminFlag(data, admin, NotifyLoadKey) {
          continue;
        }
        var lastSent := Get(lastLoadAlerts, admin).GetOr(0);
        if now - lastSent < LoadAlertCooldown {
          continue;
        }
        attempted := attempted + [admin];
        if sent(admin) {
          lastLoadAlerts := lastLoadAlerts[admin := now];
        }
      }
    }
  }

  // ---------------------------------------------------------------------
  // What a round promises

  /** With both loads below their thresholds nobody is alerted and no stamp
      changes. */
  lemma CalmLoadNoAlert(stamps: map<int, int>, admins: seq<int>, cpu: real, memory: real,
                        cpuThreshold: int, memoryThreshold: int, data: Object, now: int, sent: int -> bool)
    requires cpu < cpuThreshold as real && memory < memoryThreshold as real
    ensures MonitorRound(stamps, admins, cpu, memory, cpuThreshold, memoryThreshold, data, now, sent) == Round(stamps, [])
  {
  }

  /** An administrator is sent an alert exactly when listed, wanting load
      alerts and out of cooldown at the start of the pass. */
  lemma {:induction false} AttemptedIff(r: Round, admins: seq<int>, data: Object, now: int, sent: int -> bool, a: int)
    ensures a in AlertAdmins(r, admins, data, now, sent).attempted
            <==> a in r.attempted || (a in admins && WantsLoadAlerts(data, a) && Due(r.stamps, a, now))
    decreases |admins|
  {
    if admins != [] {
      var x := admins[0];
      var r1 := AlertAdmin(r, x, data, now, sent);
      AttemptedIff(r1, admins[1..], data, now, sent, a);
      assert admins == [x] + admins[1..];
      if a != x {
        assert LastSent(r1.stamps, a) == LastSent(r.stamps, a);
      }
    }
  }

  /** A stamp changes, to the time of the pass, exactly for the
      administrators an alert was sent to successfully. */
  lemma {:induction false} StampsAfter(r: Round, admins: seq<int>, data: Object, now: int, sent: int -> bool, a: int)
    ensures Get(AlertAdmins(r, admins, data, now, sent).stamps, a)
            == if a in admins && WantsLoadAlerts(data, a) && Due(r.stamps, a, now) && sent(a) then Some(now)
               else Get(r.stamps, a)
    decreases |admins|
  {
    if admins != [] {
      var x := admins[0];
      var r1 := AlertAdmin(r, x, data, now, sent);
      StampsAfter(r1, admins[1..], data, now, sent, a);
      assert admins == [x] + admins[1..];
      if a == x && WantsLoadAlerts(data, a) && Due(r.stamps, a, now) && sent(a) {
        assert Get(r1.stamps, a) == Some(now);
        assert !Due(r1.stamps, a, now);
      }
    }
  }

  /** The outcome of a pass for one administrator, in terms of the state
      before it. */
  lemma RoundOutcome(stamps: map<int, int>, admins: seq<int>, cpu: real, memory: real,
                     cpuThreshold: int, memoryThreshold: int, data: Object, now: int, sent: int -> bool, a: int)
    ensures var r := MonitorRound(stamps, admins, cpu, memory, cpuThreshold, memoryThreshold, data, now, sent);
            var alerted := a in admins && Overloaded(cpu, memory, cpuThreshold, memoryThreshold)
                           && WantsLoadAlerts(data, a) && Due(stamps, a, now);
            && (a in r.attempted <==> alerted)
            && Get(r.stamps, a) == if alerted && sent(a) then Some(now) else Get(stamps, a)
  {
    if admins != [] && Overloaded(cpu, memory, cpuThreshold, memoryThreshold) {
      AttemptedIff(Round(stamps, []), admins, data, now, sent, a);
      StampsAfter(Round(stamps, []), admins, data, now, sent, a);
    }
  }

  /** Two overloads less than 30 minutes apart give an administrator at most
      one delivered alert: after one was sent successfully, the next pass
      within the cooldown sends none. */
  lemma CooldownSuppressesRepeat(stamps: map<int, int>, admins: seq<int>, cpu1: real, memory1: real,
                                 cpu2: real, memory2: real, cpuThreshold: int, memoryThreshold: int,
                                 data: Object, t1: int, t2: int, sent: int -> bool, a: int)
    requires t1 <= t2 < t1 + LoadAlertCooldown
    ensures var r1 := MonitorRound(stamps, admins, cpu1, memory1, cpuThreshold, memoryThreshold, data, t1, sent);
            var r2 := MonitorRound(r1.stamps, admins, cpu2, memory2, cpuThreshold, memoryThreshold, data, t2, sent);
            a in r1.attempted && sent(a) ==> a !in r2.attempted
  {
    RoundOutcome(stamps, admins, cpu1, memory1, cpuThreshold, memoryThreshold, data, t1, sent, a);
    var r1 := MonitorRound(stamps, admins, cpu1, memory1, cpuThreshold, memoryThreshold, data, t1, sent);
    RoundOutcome(r1.stamps, admins, cpu2, memory2, cpuThreshold, memoryThreshold, data, t2, sent, a);
  }
}
