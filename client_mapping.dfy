/** The Telegram-user-to-VPN-client mapping kept in the `.env` file under
    `CLIENT_MAPPING` as `id:name,id:name,...` (src/vpn_bot.py:249-299). */
module ClientMapping {
  import opened Wrappers
  import opened Text
  import opened Dicts
  import opened EnvFile

  const ClientMappingKey: string := "CLIENT_MAPPING"

  // ---------------------------------------------------------------------
  // Parsing

  /** One comma-separated item: stripped, split at its first `:`, both sides
      stripped; None when the item is blank, has no `:` or a side is empty. */
  function ItemEntry(item: string): Option<Entry> {
    var t := Strip(item);
    if t == [] || ':' !in t then None
    else
      var (id, name) := SplitOnce(t, ':');
      var id', name' := Strip(id), Strip(name);
      if id' == [] || name' == [] then None else Some((id', name'))
  }

  /** The mapping built from the items in order; a later item for the same
      id replaces the earlier value and keeps its position. */
  function MappingOfItems(items: seq<string>): (d: seq<Entry>)
    ensures DistinctKeys(d)
  {
    if items == [] then []
    else
      var front := MappingOfItems(items[..|items| - 1]);
      match ItemEntry(items[|items| - 1])
      case None => front
      case Some(e) => Put(front, e.0, e.1)
  }

  /** What `get_client_mapping` makes of the raw `CLIENT_MAPPING` value. */
  function MappingOf(raw: string): (d: seq<Entry>)
    ensures DistinctKeys(d)
  {
    if raw == [] then [] else MappingOfItems(Split(raw, ','))
  }

  /** The loop of `get_client_mapping` over the raw value. */
  method ParseClientMapping(raw: string) returns (mapping: seq<Entry>)
    ensures mapping == MappingOf(raw)
  {
    mapping := [];
    if raw == [] {
      return;
    }
    var items := Split(raw, ',');
    for i := 0 to |items|
      invariant mapping == MappingOfItems(items[..i])
    {
      MappingOfItemsStep(items, i);
      match ItemEntry(items[i])
      case None =>
      case Some(e) =>
        mapping := Put(mapping, e.0, e.1);
    }
    assert items[..|items|] == items;
  }

  /** One more item: the mapping so far, updated by the item when it is one. */
  lemma MappingOfItemsStep(items: seq<string>, i: int)
    requires 0 <= i < |items|
    ensures MappingOfItems(items[..i + 1]) == match ItemEntry(items[i])
                                              case None => MappingOfItems(items[..i])
                                              case Some(e) => Put(MappingOfItems(items[..i]), e.0, e.1)
  {
    assert items[..i + 1][..i] == items[..i];
    assert items[..i + 1][i] == items[i];
  }

  /** The mapping stored in a `.env` file with this content. */
  function ClientMapping(content: string): seq<Entry> {
    MappingOf(Get(EnvValues(ReadLines(content)), ClientMappingKey).GetOr(""))
  }

  /** `get_client_mapping()` on the content of the `.env` file. */
  method GetClientMapping(content: string) returns (mapping: seq<Entry>)
    ensures mapping == ClientMapping(content)
  {
    var values := ReadEnvValues(content);
    var raw := Get(values, ClientMappingKey).GetOr("");
    mapping := ParseClientMapping(raw);
  }

  /** `get_client_name_for_user(user_id)`. */
  method GetClientNameForUser(content: string, userId: int) returns (name: Option<string>)
    ensures name == Get(ToMap(ClientMapping(content)), IntToString(userId))
  {
    var mapping := GetClientMapping(content);
    name := Get(ToMap(mapping), IntToString(userId));
  }

  // ---------------------------------------------------------------------
  // Serialising

  /** An id that survives a round trip through the serialised form. */
  predicate MappingId(id: string) {
    id != [] && Stripped(id) && ',' !in id && ':' !in id && '\n' !in id
  }

  /** A client name that survives a round trip through the serialised form. */
  predicate MappingName(name: string) {
    name != [] && Stripped(name) && ',' !in name && '\n' !in name
  }

  predicate WellFormedMapping(d: seq<Entry>) {
    DistinctKeys(d) && forall e | e in d :: MappingId(e.0) && MappingName(e.1)
  }

  function Item(e: Entry): string {
    e.0 + ":" + e.1
  }

  function Items(d: seq<Entry>): (items: seq<string>)
    ensures |items| == |d|
    ensures forall i :: 0 <= i < |d| ==> items[i] == Item(d[i])
  {
    if d == [] then [] else Items(d[..|d| - 1]) + [Item(d[|d| - 1])]
  }

  /** `",".join(f"{key}:{value}" ...)` over the mapping. */
  function Serialize(d: seq<Entry>): string {
    Join(",", Items(d))
  }

  lemma ItemReadsBack(e: Entry)
    requires MappingId(e.0) && MappingName(e.1)
    ensures ItemEntry(Item(e)) == Some(e)
    ensures ',' !in Item(e) && '\n' !in Item(e)
  {
    var t := Item(e);
    assert Stripped(t) by {
      assert t[0] == e.0[0];
      assert t[|t| - 1] == e.1[|e.1| - 1];
    }
    StripOfStripped(t);
    SplitOnceOf(e.0, ':', e.1);
    StripOfStripped(e.0);
    StripOfStripped(e.1);
  }

  /** A well-formed mapping is a well-formed front plus a last entry whose
      id the front does not hold. */
  lemma WellFormedFront(d: seq<Entry>)
    requires WellFormedMapping(d) && d != []
    ensures var d', e := d[..|d| - 1], d[|d| - 1];
            WellFormedMapping(d') && !HasKey(d', e.0) && MappingId(e.0) && MappingName(e.1)
  {
    var d', e := d[..|d| - 1], d[|d| - 1];
    assert e in d;
    forall x | x in d' ensures x in d { var i :| 0 <= i < |d'| && d'[i] == x; assert d[i] == x; }
    forall i | 0 <= i < |d'| ensures d'[i].0 != e.0 { assert d'[i] == d[i]; }
  }

  lemma {:induction false} ItemsRoundTrip(d: seq<Entry>)
    requires WellFormedMapping(d)
    ensures MappingOfItems(Items(d)) == d
  {
    if d != [] {
      var d', e := d[..|d| - 1], d[|d| - 1];
      WellFormedFront(d);
      var items := Items(d);
      assert MappingOfItems(items[..|items| - 1]) == d' by {
        assert items[..|items| - 1] == Items(d');
        ItemsRoundTrip(d');
      }
      assert ItemEntry(items[|items| - 1]) == Some(e) by {
        ItemReadsBack(e);
      }
      assert Put(d', e.0, e.1) == d' + [e];
      assert d' + [e] == d;
    }
  }

  /** Parsing the serialised form gives back the mapping, order included. */
  lemma SerializeRoundTrip(d: seq<Entry>)
    requires WellFormedMapping(d)
    ensures MappingOf(Serialize(d)) == d
  {
    if d == [] {
      assert Serialize(d) == "";
    } else {
      var items := Items(d);
      forall i | 0 <= i < |items| ensures ',' !in items[i] {
        assert d[i] in d;
        ItemReadsBack(d[i]);
      }
      assert Serialize(d) != [] by {
        assert Serialize(d) == if |items| == 1 then items[0] else items[0] + "," + Join(",", items[1..]);
        assert |items[0]| > 0;
      }
      SplitJoin(items, ',');
      ItemsRoundTrip(d);
    }
  }

  /** Every item parsed from one line of the file is a well-formed pair. */
  lemma ItemEntryWellFormed(item: string)
    requires ',' !in item && '\n' !in item
    ensures ItemEntry(item).Some? ==> MappingId(ItemEntry(item).value.0) && MappingName(ItemEntry(item).value.1)
  {
    var t, p, q := StripParts(item);
    StripKeepsOut(item, ',');
    StripKeepsOut(item, '\n');
    if ':' in t {
      var (id, name) := SplitOnce(t, ':');
      assert t == id + ":" + name;
      assert ',' !in id && '\n' !in id && ',' !in name && '\n' !in name;
      StripKeepsOut(id, ',');
      StripKeepsOut(id, '\n');
      StripKeepsOut(id, ':');
      StripKeepsOut(name, ',');
      StripKeepsOut(name, '\n');
      var a, _, _ := StripParts(id);
      var b, _, _ := StripParts(name);
    }
  }

  lemma {:induction false} MappingOfItemsWellFormed(items: seq<string>)
    requires forall i :: 0 <= i < |items| ==> ',' !in items[i] && '\n' !in items[i]
    ensures WellFormedMapping(MappingOfItems(items))
  {
    if items != [] {
      MappingOfItemsWellFormed(items[..|items| - 1]);
      ItemEntryWellFormed(items[|items| - 1]);
    }
  }

  /** A mapping read from a file is always well-formed. */
  lemma MappingOfWellFormed(raw: string)
    requires '\n' !in raw
    ensures WellFormedMapping(MappingOf(raw))
  {
    if raw != [] {
      var items := Split(raw, ',');
      JoinSplit(raw, ',');
      forall i | 0 <= i < |items| ensures '\n' !in items[i] {
        SplitPartsIn(raw, ',', i);
      }
      MappingOfItemsWellFormed(items);
    }
  }

  lemma SplitPartsIn(s: string, c: char, i: int)
    requires 0 <= i < |Split(s, c)|
    ensures forall x | x in Split(s, c)[i] :: x in s
    decreases |s|
  {
    if c in s {
      var (head, tail) := SplitOnce(s, c);
      if i > 0 {
        SplitPartsIn(tail, c, i - 1);
      }
    }
  }

  lemma ClientMappingWellFormed(content: string)
    ensures WellFormedMapping(ClientMapping(content))
  {
    var values := EnvValues(ReadLines(content));
    EnvValuesOneLine(ReadLines(content));
    MappingOfWellFormed(Get(values, ClientMappingKey).GetOr(""));
  }

  /** The serialised form of a well-formed mapping is a valid `.env` value. */
  lemma SerializeIsValue(d: seq<Entry>)
    requires WellFormedMapping(d)
    ensures ValidValue(Serialize(d))
  {
    var items := Items(d);
    forall i | 0 <= i < |items| ensures '\n' !in items[i] && ',' !in items[i] {
      assert d[i] in d;
      ItemReadsBack(d[i]);
    }
    JoinNoChar(",", items, '\n');
    if d != [] {
      JoinEnds(",", items);
      assert d[0] in d && d[|d| - 1] in d;
      assert items[0][0] == d[0].0[0];
      var last := items[|items| - 1];
      assert last[|last| - 1] == d[|d| - 1].1[|d[|d| - 1].1| - 1];
    }
  }

  /** A join of non-empty parts starts with the first part's first character
      and ends with the last part's last character. */
  lemma JoinEnds(sep: string, parts: seq<string>)
    requires |parts| >= 1 && forall i :: 0 <= i < |parts| ==> parts[i] != []
    ensures |Join(sep, parts)| > 0
    ensures Join(sep, parts)[0] == parts[0][0]
    ensures Join(sep, parts)[|Join(sep, parts)| - 1] == parts[|parts| - 1][|parts[|parts| - 1]| - 1]
  {
    if |parts| > 1 {
      JoinEnds(sep, parts[1..]);
    }
  }

  // ---------------------------------------------------------------------
  // Changing the mapping

  /** A `.env` content on which `update_env_values` as written appends a
      new `CLIENT_MAPPING` line on a line of its own, or appends nothing:
      the file is empty, ends with a newline, or already holds the key. */
  predicate AppendsCleanly(content: string) {
    var lines := ReadLines(content);
    lines == [] || Terminated(lines[|lines| - 1]) || ClientMappingKey in EnvValues(lines)
  }

  /** On such a content the code as written writes what the intended
      `update_env_values` writes for a `CLIENT_MAPPING` update. */
  lemma AsWrittenAgrees(content: string, v: string)
    requires AppendsCleanly(content)
    ensures UpdatedLinesAsWritten(ReadLines(content), [(ClientMappingKey, v)])
         == UpdatedLines(ReadLines(content), [(ClientMappingKey, v)])
  {
    var lines := ReadLines(content);
    if lines == [] || Terminated(lines[|lines| - 1]) {
      AsWrittenWhenTerminated(lines, [(ClientMappingKey, v)]);
    } else {
      AsWrittenWhenPresent(lines, [(ClientMappingKey, v)]);
    }
  }

  /** `set_client_mapping(telegram_id, client_name)` on the content of the
      `.env` file; returns the content written, by the intended
      `update_env_values`, which is what the code as written also writes
      whenever the new line cannot be glued onto an unterminated last line. */
  method SetClientMapping(content: string, telegramId: string, clientName: string) returns (newContent: string)
    ensures newContent == Concat(UpdatedLines(ReadLines(content),
              [(ClientMappingKey, Serialize(Put(ClientMapping(content), telegramId, clientName)))]))
    ensures AppendsCleanly(content) ==>
              newContent == Concat(UpdatedLinesAsWritten(ReadLines(content),
                [(ClientMappingKey, Serialize(Put(ClientMapping(content), telegramId, clientName)))]))
  {
    var clientMap := GetClientMapping(content);
    clientMap := Put(clientMap, telegramId, clientName);
    var serialized := SerializeItems(clientMap);
    newContent := UpdateEnvValues(content, [(ClientMappingKey, serialized)]);
    if AppendsCleanly(content) {
      AsWrittenAgrees(content, serialized);
    }
  }

  /** A file whose mapping binds some id holds `CLIENT_MAPPING`, so a
      rewrite of that key appends nothing. */
  lemma MappedAppendsCleanly(content: string, telegramId: string)
    requires HasKey(ClientMapping(content), telegramId)
    ensures AppendsCleanly(content)
  {
    var values := EnvValues(ReadLines(content));
    if ClientMappingKey !in values {
      assert false;
    }
  }

  /** `remove_client_mapping(telegram_id)`: the file is rewritten only when the
      id is mapped, and then the code as written and the intended
      `update_env_values` write the same. */
  method RemoveClientMapping(content: string, telegramId: string) returns (newContent: string)
    ensures !HasKey(ClientMapping(content), telegramId) ==> newContent == content
    ensures HasKey(ClientMapping(content), telegramId) ==>
      newContent == Concat(UpdatedLines(ReadLines(content),
                      [(ClientMappingKey, Serialize(Remove(ClientMapping(content), telegramId)))]))
    ensures HasKey(ClientMapping(content), telegramId) ==>
      newContent == Concat(UpdatedLinesAsWritten(ReadLines(content),
                      [(ClientMappingKey, Serialize(Remove(ClientMapping(content), telegramId)))]))
  {
    var clientMap := GetClientMapping(content);
    if HasKey(clientMap, telegramId) {
      clientMap := Remove(clientMap, telegramId);
      var serialized := SerializeItems(clientMap);
      newContent := UpdateEnvValues(content, [(ClientMappingKey, serialized)]);
      MappedAppendsCleanly(content, telegramId);
      AsWrittenAgrees(content, serialized);
    } else {
      newContent := content;
    }
  }

  /** The list comprehension and `join` that serialise the mapping. */
  method SerializeItems(d: seq<Entry>) returns (s: string)
    ensures s == Serialize(d)
  {
    var items: seq<string> := [];
    for i := 0 to |d|
      invariant items == Items(d[..i])
    {
      assert d[..i + 1][..i] == d[..i];
      items := items + [Item(d[i])];
    }
    assert d[..|d|] == d;
    s := Join(",", items);
  }

  lemma ClientKeyValid()
    ensures ValidKey(ClientMappingKey)
  {
    assert ClientMappingKey[0] == 'C';
    assert ClientMappingKey[|ClientMappingKey| - 1] == 'G';
  }

  /** Writing a new mapping value and reading the file back gives that
      mapping, and every other key keeps its value; the code as written
      does the same on a file it does not glue onto. */
  lemma StoreThenRead(content: string, d: seq<Entry>)
    requires WellFormedMapping(d)
    ensures var written := Concat(UpdatedLines(ReadLines(content), [(ClientMappingKey, Serialize(d))]));
            && ClientMapping(written) == d
            && forall k | k != ClientMappingKey ::
                 Get(EnvValues(ReadLines(written)), k) == Get(EnvValues(ReadLines(content)), k)
    ensures AppendsCleanly(content) ==>
              ClientMapping(Concat(UpdatedLinesAsWritten(ReadLines(content), [(ClientMappingKey, Serialize(d))]))) == d
  {
    var v := Serialize(d);
    if AppendsCleanly(content) {
      AsWrittenAgrees(content, v);
    }
    ClientKeyValid();
    SerializeIsValue(d);
    UpdateOneThenRead(content, ClientMappingKey, v);
    SerializeRoundTrip(d);
  }

  /** After `set_client_mapping(id, name)` the id maps to the name and every
      other id keeps its client. */
  lemma SetThenGet(content: string, telegramId: string, clientName: string)
    requires MappingId(telegramId) && MappingName(clientName)
    ensures var d := Put(ClientMapping(content), telegramId, clientName);
            var written := Concat(UpdatedLines(ReadLines(content), [(ClientMappingKey, Serialize(d))]));
            ToMap(ClientMapping(written)) == ToMap(ClientMapping(content))[telegramId := clientName]
  {
    var old0 := ClientMapping(content);
    ClientMappingWellFormed(content);
    var d := Put(old0, telegramId, clientName);
    assert WellFormedMapping(d);
    StoreThenRead(content, d);
  }

  /** `set_client_mapping` as written, on a file where the new line is not
      glued onto the last one: the id maps to the name and every other id
      keeps its client. */
  lemma SetThenGetAsWritten(content: string, telegramId: string, clientName: string)
    requires MappingId(telegramId) && MappingName(clientName)
    requires AppendsCleanly(content)
    ensures var d := Put(ClientMapping(content), telegramId, clientName);
            var written := Concat(UpdatedLinesAsWritten(ReadLines(content), [(ClientMappingKey, Serialize(d))]));
            ToMap(ClientMapping(written)) == ToMap(ClientMapping(content))[telegramId := clientName]
  {
    var d := Put(ClientMapping(content), telegramId, clientName);
    AsWrittenAgrees(content, Serialize(d));
    SetThenGet(content, telegramId, clientName);
  }

  /** The defect of `update_env_values` as written reaches
      `set_client_mapping`: on a one-line file `k1=v1` without a final
      newline, the new `CLIENT_MAPPING` line is glued onto it, the file
      then holds no `CLIENT_MAPPING` at all, and the mapping reads back
      empty however many clients were bound. */
  lemma SetClientMappingAsWrittenLoses(k1: string, v1: string, telegramId: string, clientName: string)
    requires ValidKey(k1) && ValidValue(v1) && k1 != ClientMappingKey
    requires MappingId(telegramId) && MappingName(clientName)
    ensures var content := k1 + "=" + v1;
            var d := Put(ClientMapping(content), telegramId, clientName);
            var written := Concat(UpdatedLinesAsWritten(ReadLines(content), [(ClientMappingKey, Serialize(d))]));
            && HasKey(d, telegramId)
            && ClientMapping(written) == []
  {
    var content := k1 + "=" + v1;
    var d := Put(ClientMapping(content), telegramId, clientName);
    ClientMappingWellFormed(content);
    assert WellFormedMapping(d);
    SerializeIsValue(d);
    ClientKeyValid();
    AsWrittenGluesLastLine(k1, v1, ClientMappingKey, Serialize(d));
  }

  /** After `remove_client_mapping(id)` the id is unmapped and every other id
      keeps its client; when the id was mapped, the code as written gives
      the same. */
  lemma RemoveThenGet(content: string, telegramId: string)
    ensures var d := Remove(ClientMapping(content), telegramId);
            var written := Concat(UpdatedLines(ReadLines(content), [(ClientMappingKey, Serialize(d))]));
            ToMap(ClientMapping(written)) == ToMap(ClientMapping(content)) - {telegramId}
    ensures var d := Remove(ClientMapping(content), telegramId);
            var written := Concat(UpdatedLinesAsWritten(ReadLines(content), [(ClientMappingKey, Serialize(d))]));
            HasKey(ClientMapping(content), telegramId) ==>
              ToMap(ClientMapping(written)) == ToMap(ClientMapping(content)) - {telegramId}
  {
    if HasKey(ClientMapping(content), telegramId) {
      MappedAppendsCleanly(content, telegramId);
      AsWrittenAgrees(content, Serialize(Remove(ClientMapping(content), telegramId)));
    }
    var old0 := ClientMapping(content);
    ClientMappingWellFormed(content);
    var d := Remove(old0, telegramId);
    assert WellFormedMapping(d);
    StoreThenRead(content, d);
  }
}
