/** The paginated client list (`create_client_list_keyboard`,
    src/vpn_bot.py:874-935) and the page count its callers compute
    (src/vpn_bot.py:1490, 1765, 1894, 1915, 1929, 1974).  The keyboard is a
    sequence of rows of (label, callback) buttons. */
module ClientList {
  import opened Wrappers
  import opened Text
  import opened Roster

  const ItemsPerPage: nat := 5

  datatype Button = Button(text: string, callback: string)

  type Rows = seq<seq<Button>>

  // ---------------------------------------------------------------------
  // Pages

  /** `(len(clients) + ITEMS_PER_PAGE - 1) // ITEMS_PER_PAGE`: the fewest
      pages of five that hold `n` clients. */
  function TotalPages(n: nat): (t: nat)
    ensures t * ItemsPerPage >= n
    ensures t > 0 ==> (t - 1) * ItemsPerPage < n
    ensures n == 0 <==> t == 0
  {
    (n + ItemsPerPage - 1) / ItemsPerPage
  }

  /** A slice bound as Python reads it: negative counts from the end, and
      both ends are clamped to the sequence. */
  function SliceBound(i: int, n: nat): (b: nat)
    ensures b <= n
  {
    if i < 0 then (if n + i < 0 then 0 else n + i) else if i > n then n else i
  }

  /** Python's `s[i:j]`. */
  function PySlice<T>(s: seq<T>, i: int, j: int): seq<T> {
    var lo, hi := SliceBound(i, |s|), SliceBound(j, |s|);
    if lo < hi then s[lo..hi] else []
  }

  /** `clients[start_idx:end_idx]` for a page. */
  function PageSlice<T>(clients: seq<T>, page: int): seq<T> {
    var start := (page - 1) * ItemsPerPage;
    PySlice(clients, start, start + ItemsPerPage)
  }

  function Min(a: int, b: int): int {
    if a < b then a else b
  }

  /** Page `p` (counting from 1) shows the clients from `(p-1)*5` up to
      `p*5`, cut off at the end of the list. */
  lemma PageContents<T>(clients: seq<T>, page: int)
    requires page >= 1
    ensures var n := |clients|;
            PageSlice(clients, page) == clients[Min((page - 1) * ItemsPerPage, n)..Min(page * ItemsPerPage, n)]
  {
  }

  /** The first `k` pages in order. */
  function FirstPages<T>(clients: seq<T>, k: nat): seq<T> {
    if k == 0 then [] else FirstPages(clients, k - 1) + PageSlice(clients, k)
  }

  lemma {:induction false} FirstPagesPrefix<T>(clients: seq<T>, k: nat)
    ensures FirstPages(clients, k) == clients[..Min(k * ItemsPerPage, |clients|)]
  {
    if k > 0 {
      FirstPagesPrefix(clients, k - 1);
      PageContents(clients, k);
      var n := |clients|;
      var a, b := Min((k - 1) * ItemsPerPage, n), Min(k * ItemsPerPage, n);
      assert clients[..a] + clients[a..b] == clients[..b];
    }
  }

  /** Read page after page, the list shows every client exactly once and in
      order. */
  lemma PagesPartition<T>(clients: seq<T>)
    ensures FirstPages(clients, TotalPages(|clients|)) == clients
  {
    FirstPagesPrefix(clients, TotalPages(|clients|));
    assert clients[..|clients|] == clients;
  }

  /** Client `i` is on page `i / 5 + 1`, a page that exists, at row `i % 5`. */
  lemma PageOf<T>(clients: seq<T>, i: nat)
    requires i < |clients|
    ensures var page := i / ItemsPerPage + 1;
            && 1 <= page <= TotalPages(|clients|)
            && i % ItemsPerPage < |PageSlice(clients, page)|
            && PageSlice(clients, page)[i % ItemsPerPage] == clients[i]
  {
    var page := i / ItemsPerPage + 1;
    PageContents(clients, page);
    assert (page - 1) * ItemsPerPage + i % ItemsPerPage == i;
  }

  // ---------------------------------------------------------------------
  // Labels and callbacks

  datatype Status = Expired | ExpiringSoon | Active

  /** The status of a client with `daysLeft` days until expiry. */
  function StatusOf(daysLeft: int): (s: Status)
    ensures s == Expired <==> daysLeft < 0
    ensures s == ExpiringSoon <==> 0 <= daysLeft <= 30
    ensures s == Active <==> daysLeft > 30
  {
    if daysLeft < 0 then Expired else if daysLeft <= 30 then ExpiringSoon else Active
  }

  function StatusMark(s: Status): string {
    match s
    case Expired => "❌ Истёк"
    case ExpiringSoon => "⚠️ Скоро"
    case Active => "✅"
  }

  function Rank(s: Status): nat {
    match s
    case Expired => 0
    case ExpiringSoon => 1
    case Active => 2
  }

  /** More days left never gives a worse status. */
  lemma StatusMonotone(d1: int, d2: int)
    requires d1 <= d2
    ensures Rank(StatusOf(d1)) <= Rank(StatusOf(d2))
  {
  }

  /** A client's button label.  `parseDate` stands for
      `strptime(expire, "%d-%m-%Y")` as a day number (None when it raises),
      `today` for the current day number. */
  function Label(c: VpnClient, today: int, parseDate: string -> Option<int>): (text: string)
    ensures c.expire.None? || c.expire.value == [] || c.expire.value == "unknown" ==> text == c.name
  {
    match c.expire
    case None => c.name
    case Some(e) =>
      if e == [] || e == "unknown" then c.name
      else
        match parseDate(e)
        case None => c.name + " (" + e + ")"
        case Some(day) => c.name + " (" + e + ") " + StatusMark(StatusOf(day - today))
  }

  /** Every label starts with the client's name; a usable expiry date is
      shown in brackets after it, followed by the status only when the date
      parses. */
  lemma LabelShows(c: VpnClient, today: int, parseDate: string -> Option<int>)
    ensures c.name <= Label(c, today, parseDate)
    ensures c.expire.Some? && c.expire.value != [] && c.expire.value != "unknown" ==>
              var text, dated := Label(c, today, parseDate), c.name + " (" + c.expire.value + ")";
              && dated <= text
              && (parseDate(c.expire.value).None? ==> text == dated)
              && (parseDate(c.expire.value).Some? ==>
                    text == dated + " " + StatusMark(StatusOf(parseDate(c.expire.value).value - today)))
  {
  }

  /** `delete_<type>_<name>` for the delete list, `client_<type>_<name>`
      otherwise. */
  function ItemCallback(action: string, vpnType: string, name: string): string {
    (if action == "delete" then "delete_" else "client_") + vpnType + "_" + name
  }

  function PageCallback(action: string, vpnType: string, page: int): string {
    "page_" + action + "_" + vpnType + "_" + IntToString(page)
  }

  function BackButton(vpnType: string): Button {
    Button("⬅️ Назад", vpnType + "_menu")
  }

  function PrevButton(action: string, vpnType: string, page: int): Button {
    Button("⬅️ Предыдущая", PageCallback(action, vpnType, page - 1))
  }

  function NextButton(action: string, vpnType: string, page: int): Button {
    Button("Следующая ➡️", PageCallback(action, vpnType, page + 1))
  }

  function ItemButton(c: VpnClient, vpnType: string, action: string, today: int, parseDate: string -> Option<int>): Button {
    Button(Label(c, today, parseDate), ItemCallback(action, vpnType, c.name))
  }

  /** `s.split("_", 1)` when it gives two fields. */
  function CutAtUnderscore(s: string): Option<(string, string)> {
    if '_' in s then Some(SplitOnce(s, '_')) else None
  }

  /** `_, action, vpn_type, page = data.split("_", 3)` in the callback
      handler (src/vpn_bot.py:1891); None when the unpacking raises. */
  function PageCallbackFields(data: string): Option<(string, string, string)> {
    match CutAtUnderscore(data)
    case None => None
    case Some((_, r1)) =>
      match CutAtUnderscore(r1)
      case None => None
      case Some((action, r2)) =>
        match CutAtUnderscore(r2)
        case None => None
        case Some((vpnType, page)) => Some((action, vpnType, page))
  }

  /** `_, vpn_type, client_name = data.split("_", 2)` in the delete and
      open handlers (src/vpn_bot.py:1906, 1419). */
  function ItemCallbackFields(data: string): Option<(string, string)> {
    match CutAtUnderscore(data)
    case None => None
    case Some((_, r1)) =>
      match CutAtUnderscore(r1)
      case None => None
      case Some((vpnType, name)) => Some((vpnType, name))
  }

  lemma CutJoined(head: string, tail: string)
    requires '_' !in head
    ensures CutAtUnderscore(head + ['_'] + tail) == Some((head, tail))
  {
    SplitOnceOf(head, '_', tail);
  }

  /** The page buttons' callbacks split back into their action, VPN type and
      page number the way the callback handler splits them. */
  lemma PageCallbackParses(action: string, vpnType: string, page: int)
    requires '_' !in action && '_' !in vpnType && page >= 1
    ensures PageCallbackFields(PageCallback(action, vpnType, page)) == Some((action, vpnType, IntToString(page)))
    ensures IsDigits(IntToString(page)) && DigitsValue(IntToString(page)) == page
  {
    var p := IntToString(page);
    assert '_' !in p by {
      assert forall i :: 0 <= i < |p| ==> IsDigit(p[i]);
    }
    var r2 := vpnType + ['_'] + p;
    var r1 := action + ['_'] + r2;
    var whole := "page" + ['_'] + r1;
    assert PageCallback(action, vpnType, page) == whole by {
      assert "page_" == "page" + ['_'];
    }
    CutJoined("page", r1);
    CutJoined(action, r2);
    CutJoined(vpnType, p);
  }

  /** A client button's callback, open or delete, splits back into the VPN
      type and the whole client name, underscores included. */
  lemma ItemCallbackParses(action: string, vpnType: string, name: string)
    requires '_' !in vpnType
    ensures ItemCallbackFields(ItemCallback(action, vpnType, name)) == Some((vpnType, name))
  {
    var verb := if action == "delete" then "delete" else "client";
    var r1 := vpnType + ['_'] + name;
    var whole := verb + ['_'] + r1;
    assert ItemCallback(action, vpnType, name) == whole by {
      assert "delete_" == "delete" + ['_'];
      assert "client_" == "client" + ['_'];
    }
    CutJoined(verb, r1);
    CutJoined(vpnType, name);
  }

  // ---------------------------------------------------------------------
  // The keyboard

  function ItemRows(cs: seq<VpnClient>, vpnType: string, action: string, today: int,
                    parseDate: string -> Option<int>): (rows: Rows)
    ensures |rows| == |cs|
    ensures forall i :: 0 <= i < |cs| ==> rows[i] == [ItemButton(cs[i], vpnType, action, today, parseDate)]
  {
    if cs == [] then []
    else ItemRows(cs[..|cs| - 1], vpnType, action, today, parseDate) + [[ItemButton(cs[|cs| - 1], vpnType, action, today, parseDate)]]
  }

  function Pagination(page: int, totalPages: int, vpnType: string, action: string): seq<Button> {
    (if page > 1 then [PrevButton(action, vpnType, page)] else [])
    + (if page < totalPages then [NextButton(action, vpnType, page)] else [])
  }

  /** The keyboard: one row per client on the page, the pagination row when
      it has a button, and the back button last. */
  function Keyboard(clients: seq<VpnClient>, page: int, totalPages: int, vpnType: string, action: string,
                    today: int, parseDate: string -> Option<int>): Rows
  {
    var pagination := Pagination(page, totalPages, vpnType, action);
    ItemRows(PageSlice(clients, page), vpnType, action, today, parseDate)
    + (if pagination != [] then [pagination] else [])
    + [[BackButton(vpnType)]]
  }

  /** The loop of `create_client_list_keyboard` over the page's clients. */
  method ClientRows(shown: seq<VpnClient>, vpnType: string, action: string, today: int,
                    parseDate: string -> Option<int>) returns (buttons: Rows)
    ensures buttons == ItemRows(shown, vpnType, action, today, parseDate)
  {
    buttons := [];
    for i := 0 to |shown|
      invariant buttons == ItemRows(shown[..i], vpnType, action, today, parseDate)
    {
      assert shown[..i + 1][..i] == shown[..i];
      buttons := buttons + [[ItemButton(shown[i], vpnType, action, today, parseDate)]];
    }
    assert shown[..|shown|] == shown;
  }

  /** `create_client_list_keyboard(clients, page, total_pages, vpn_type, action)`. */
  method CreateClientListKeyboard(clients: seq<VpnClient>, page: int, totalPages: int, vpnType: string,
                                  action: string, today: int, parseDate: string -> Option<int>)
    returns (buttons: Rows)
    ensures buttons == Keyboard(clients, page, totalPages, vpnType, action, today, parseDate)
  {
    var shown := PageSlice(clients, page);
    buttons := ClientRows(shown, vpnType, action, today, parseDate);
    var pagination: seq<Button> := [];
    if page > 1 {
      pagination := pagination + [PrevButton(action, vpnType, page)];
    }
    if page < totalPages {
      pagination := pagination + [NextButton(action, vpnType, page)];
    }
    assert pagination == Pagination(page, totalPages, vpnType, action);
    if pagination != [] {
      buttons := buttons + [pagination];
    }
    buttons := buttons + [[BackButton(vpnType)]];
  }

  /** The keyboard is the page's client rows, the pagination row when it
      has a button, and the back button. */
  lemma KeyboardParts(clients: seq<VpnClient>, page: int, totalPages: int, vpnType: string, action: string,
                      today: int, parseDate: string -> Option<int>)
    ensures var pagination := Pagination(page, totalPages, vpnType, action);
            var items := ItemRows(PageSlice(clients, page), vpnType, action, today, parseDate);
            var rows := Keyboard(clients, page, totalPages, vpnType, action, today, parseDate);
            && |rows| == |items| + (if pagination != [] then 2 else 1)
            && (forall i :: 0 <= i < |items| ==> rows[i] == items[i])
            && rows[|rows| - 1] == [BackButton(vpnType)]
            && (pagination != [] ==> rows[|items|] == pagination)
  {
  }

  /** Row `i` of the page shows client `(page-1)*5 + i`. */
  lemma PageRows(clients: seq<VpnClient>, page: int, vpnType: string, action: string,
                 today: int, parseDate: string -> Option<int>)
    requires page >= 1
    ensures var start := Min((page - 1) * ItemsPerPage, |clients|);
            var items := ItemRows(PageSlice(clients, page), vpnType, action, today, parseDate);
            && |items| == Min(page * ItemsPerPage, |clients|) - start
            && forall i :: 0 <= i < |items| ==> items[i] == [ItemButton(clients[start + i], vpnType, action, today, parseDate)]
  {
    var start := Min((page - 1) * ItemsPerPage, |clients|);
    var shown := PageSlice(clients, page);
    PageContents(clients, page);
    assert forall i :: 0 <= i < |shown| ==> shown[i] == clients[start + i];
  }

  /** The first rows of the keyboard are the page's client buttons. */
  lemma KeyboardItems(clients: seq<VpnClient>, page: int, totalPages: int, vpnType: string, action: string,
                      today: int, parseDate: string -> Option<int>)
    requires page >= 1
    ensures var rows := Keyboard(clients, page, totalPages, vpnType, action, today, parseDate);
            var start := Min((page - 1) * ItemsPerPage, |clients|);
            var shown := Min(page * ItemsPerPage, |clients|) - start;
            && |rows| >= shown + 1
            && forall i :: 0 <= i < shown ==> rows[i] == [ItemButton(clients[start + i], vpnType, action, today, parseDate)]
  {
    KeyboardParts(clients, page, totalPages, vpnType, action, today, parseDate);
    PageRows(clients, page, vpnType, action, today, parseDate);
  }

  /** After the client rows come the pagination row, when it has a button,
      and the back button. */
  lemma KeyboardTail(clients: seq<VpnClient>, page: int, totalPages: int, vpnType: string, action: string,
                     today: int, parseDate: string -> Option<int>)
    requires page >= 1
    ensures var rows := Keyboard(clients, page, totalPages, vpnType, action, today, parseDate);
            var start := Min((page - 1) * ItemsPerPage, |clients|);
            var shown := Min(page * ItemsPerPage, |clients|) - start;
            && rows[|rows| - 1] == [BackButton(vpnType)]
            && (page > 1 || page < totalPages <==> |rows| == shown + 2)
            && (|rows| == shown + 2 ==>
                  && (PrevButton(action, vpnType, page) in rows[shown] <==> page > 1)
                  && (NextButton(action, vpnType, page) in rows[shown] <==> page < totalPages))
  {
    KeyboardParts(clients, page, totalPages, vpnType, action, today, parseDate);
    PageContents(clients, page);
    var pagination := Pagination(page, totalPages, vpnType, action);
    assert pagination != [] <==> page > 1 || page < totalPages;
    assert PrevButton(action, vpnType, page) in pagination <==> page > 1;
    assert NextButton(action, vpnType, page) in pagination <==> page < totalPages;
  }

  /** What the keyboard promises: the page's clients in order, each with its
      label and its open or delete callback; a "previous" button exactly when
      `page > 1` and a "next" button exactly when `page < total_pages`, in
      one row; and the back button as the last row. */
  lemma KeyboardLayout(clients: seq<VpnClient>, page: int, vpnType: string, action: string,
                       today: int, parseDate: string -> Option<int>)
    requires page >= 1
    ensures var totalPages := TotalPages(|clients|);
            var rows := Keyboard(clients, page, totalPages, vpnType, action, today, parseDate);
            var start := Min((page - 1) * ItemsPerPage, |clients|);
            var shown := Min(page * ItemsPerPage, |clients|) - start;
            && rows[|rows| - 1] == [BackButton(vpnType)]
            && (forall i :: 0 <= i < shown ==>
                  rows[i] == [Button(Label(clients[start + i], today, parseDate),
                                     ItemCallback(action, vpnType, clients[start + i].name))])
            && (page > 1 || page < totalPages <==> |rows| == shown + 2)
            && (|rows| == shown + 2 ==>
                  && (PrevButton(action, vpnType, page) in rows[shown] <==> page > 1)
                  && (NextButton(action, vpnType, page) in rows[shown] <==> page < totalPages))
  {
    var totalPages := TotalPages(|clients|);
    KeyboardItems(clients, page, totalPages, vpnType, action, today, parseDate);
    KeyboardTail(clients, page, totalPages, vpnType, action, today, parseDate);
  }

  /** The page buttons lead only to pages that exist. */
  lemma NavigationInRange(n: nat, page: int)
    requires 1 <= page <= TotalPages(n)
    ensures page > 1 ==> 1 <= page - 1 <= TotalPages(n)
    ensures page < TotalPages(n) ==> 1 <= page + 1 <= TotalPages(n)
    ensures |PageSlice(seq(n, i => i), page)| > 0
  {
    PageContents(seq(n, i => i), page);
  }
}
