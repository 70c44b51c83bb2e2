/** Who may do what: the administrators listed in `ADMIN_ID`
    (src/vpn_bot.py:100) may do everything; anyone else may only open the
    client the mapping assigns to them (src/vpn_bot.py:1417-1424). */
module Authorization {
  import opened Wrappers
  import opened Text
  import opened Dicts
  import opened ClientMapping

  /** One comma-separated item of `ADMIN_ID`: kept when its stripped text is
      all digits (`int` ignores the surrounding whitespace itself). */
  function AdminIdOf(item: string): Option<nat> {
    var t := Strip(item);
    if IsDigits(t) then Some(DigitsValue(t)) else None
  }

  function AdminIdsOf(items: seq<string>): seq<int> {
    if items == [] then []
    else
      var front := AdminIdsOf(items[..|items| - 1]);
      match AdminIdOf(items[|items| - 1])
      case None => front
      case Some(id) => front + [id]
  }

  /** `[int(x) for x in raw.split(",") if x.strip().isdigit()]`. */
  function AdminIds(raw: string): seq<int> {
    AdminIdsOf(Split(raw, ','))
  }

  /** The list comprehension that builds `ADMIN_ID`. */
  method ParseAdminIds(raw: string) returns (ids: seq<int>)
    ensures ids == AdminIds(raw)
  {
    var items := Split(raw, ',');
    ids := [];
    for i := 0 to |items|
      invariant ids == AdminIdsOf(items[..i])
    {
      assert items[..i + 1][..i] == items[..i];
      var t := Strip(items[i]);
      if IsDigits(t) {
        ids := ids + [DigitsValue(t)];
      }
    }
    assert items[..|items|] == items;
  }

  function DecimalItems(ns: seq<nat>): (items: seq<string>)
    ensures |items| == |ns|
    ensures forall i :: 0 <= i < |ns| ==> items[i] == NatToString(ns[i])
  {
    if ns == [] then [] else DecimalItems(ns[..|ns| - 1]) + [NatToString(ns[|ns| - 1])]
  }

  lemma DecimalItemReads(n: nat)
    ensures AdminIdOf(NatToString(n)) == Some(n)
    ensures ',' !in NatToString(n)
  {
    var s := NatToString(n);
    DigitsItemReads(s);
  }

  /** A run of digits is its own stripped text and holds no comma. */
  lemma DigitsItemReads(s: string)
    requires IsDigits(s)
    ensures AdminIdOf(s) == Some(DigitsValue(s)) && ',' !in s
  {
    assert Stripped(s) by {
      assert IsDigit(s[0]) && IsDigit(s[|s| - 1]);
    }
    StripOfStripped(s);
    assert forall i :: 0 <= i < |s| ==> s[i] != ',';
  }

  lemma {:induction false} DecimalItemsRead(ns: seq<nat>)
    ensures AdminIdsOf(DecimalItems(ns)) == ns
  {
    if ns != [] {
      var items := DecimalItems(ns);
      assert items[..|items| - 1] == DecimalItems(ns[..|ns| - 1]);
      DecimalItemsRead(ns[..|ns| - 1]);
      DecimalItemReads(ns[|ns| - 1]);
      assert ns[..|ns| - 1] + [ns[|ns| - 1]] == ns;
    }
  }

  /** An `ADMIN_ID` written as comma-separated decimal ids is read back as
      exactly those ids, in order; an empty one gives no administrator. */
  lemma AdminIdsRoundTrip(ns: seq<nat>)
    ensures AdminIds(Join(",", DecimalItems(ns))) == ns
  {
    var items := DecimalItems(ns);
    if ns == [] {
      assert Split("", ',') == [""];
      assert AdminIdsOf([""]) == AdminIdsOf([]) by {
        assert [""][..0] == [];
      }
    } else {
      forall i | 0 <= i < |items| ensures ',' !in items[i] {
        DecimalItemReads(ns[i]);
      }
      SplitJoin(items, ',');
      DecimalItemsRead(ns);
    }
  }

  /** The ids of two runs of items are the ids of the first run followed by
      those of the second: the ids keep the order of their items. */
  lemma {:induction false} AdminIdsConcat(a: seq<string>, b: seq<string>)
    ensures AdminIdsOf(a + b) == AdminIdsOf(a) + AdminIdsOf(b)
  {
    if b == [] {
      assert a + b == a;
    } else {
      var b' := b[..|b| - 1];
      assert (a + b)[..|a + b| - 1] == a + b';
      assert (a + b)[|a + b| - 1] == b[|b| - 1];
      AdminIdsConcat(a, b');
    }
  }

  /** A number is an administrator id exactly when some item of the list
      is, once stripped, that number's digits. */
  lemma AdminIdsFromItems(items: seq<string>)
    ensures forall n: nat :: n in AdminIdsOf(items) <==> exists i :: 0 <= i < |items| && AdminIdOf(items[i]) == Some(n)
  {
    AdminIdsSound(items);
    AdminIdsComplete(items);
  }

  /** Every id comes from an item. */
  lemma {:induction false} AdminIdsSound(items: seq<string>)
    ensures forall n: nat | n in AdminIdsOf(items) :: exists i :: 0 <= i < |items| && AdminIdOf(items[i]) == Some(n)
  {
    if items != [] {
      var front := items[..|items| - 1];
      AdminIdsSound(front);
      forall n: nat | n in AdminIdsOf(items)
        ensures exists i :: 0 <= i < |items| && AdminIdOf(items[i]) == Some(n)
      {
        if n in AdminIdsOf(front) {
          var i :| 0 <= i < |front| && AdminIdOf(front[i]) == Some(n);
          assert items[i] == front[i];
        } else {
          assert AdminIdOf(items[|items| - 1]) == Some(n);
        }
      }
    }
  }

  /** Every item that is a number gives an id. */
  lemma {:induction false} AdminIdsComplete(items: seq<string>)
    ensures forall i :: 0 <= i < |items| && AdminIdOf(items[i]).Some? ==> AdminIdOf(items[i]).value in AdminIdsOf(items)
  {
    if items != [] {
      var front := items[..|items| - 1];
      AdminIdsComplete(front);
      forall i | 0 <= i < |items| - 1 ensures items[i] == front[i] {
      }
    }
  }

  /** `callback.from_user.id in ADMIN_ID`. */
  predicate IsAdmin(adminIds: seq<int>, userId: int) {
    userId in adminIds
  }

  /** The check in `handle_client_selection`: an administrator may open any
      client; anyone else only the client `get_client_name_for_user` gives
      them, and only when that is non-empty. */
  predicate MayOpenClient(adminIds: seq<int>, userId: int, allowedClient: Option<string>, clientName: string) {
    IsAdmin(adminIds, userId) || (allowedClient.Some? && allowedClient.value != [] && allowedClient.value == clientName)
  }

  /** The access check of `handle_client_selection` on the stored mapping. */
  method CheckClientSelection(adminIds: seq<int>, content: string, userId: int, clientName: string)
    returns (allowed: bool)
    ensures allowed == MayOpenClient(adminIds, userId, Get(ToMap(ClientMapping.ClientMapping(content)), IntToString(userId)), clientName)
  {
    allowed := true;
    if userId !in adminIds {
      var allowedClient := GetClientNameForUser(content, userId);
      if allowedClient.None? || allowedClient.value == [] || allowedClient.value != clientName {
        allowed := false;
      }
    }
  }

  /** A user who is not an administrator may open a client exactly when the
      stored mapping assigns that client to the user's id; so each such user
      may open at most one client. */
  lemma OnlyOwnClient(adminIds: seq<int>, content: string, userId: int, clientName: string, other: string)
    requires !IsAdmin(adminIds, userId)
    ensures var m := ToMap(ClientMapping.ClientMapping(content));
            var allowed := Get(m, IntToString(userId));
            && (MayOpenClient(adminIds, userId, allowed, clientName) <==>
                 IntToString(userId) in m && m[IntToString(userId)] == clientName)
            && (MayOpenClient(adminIds, userId, allowed, clientName) && MayOpenClient(adminIds, userId, allowed, other) ==>
                 clientName == other)
  {
    var d := ClientMapping.ClientMapping(content);
    ClientMappingWellFormed(content);
    var id := IntToString(userId);
    if id in ToMap(d) {
      var i :| 0 <= i < |d| && d[i].0 == id;
      ToMapAt(d, i);
      assert d[i] in d;
    }
  }
}
