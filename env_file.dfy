/** The bot's `.env` file: `read_env_values` and `update_env_values`
    (src/vpn_bot.py:156-214).  The file is its text content; reading it is
    `readlines()`, writing it is `writelines()`. */
module EnvFile {
  import opened Wrappers
  import opened Text
  import opened Dicts

  // ---------------------------------------------------------------------
  // Physical lines

  predicate Terminated(line: string) {
    line != [] && line[|line| - 1] == '\n'
  }

  /** A line as `readlines()` yields it: non-empty, a newline at most at its end. */
  predicate PhysicalLine(line: string) {
    line != [] && '\n' !in line[..|line| - 1]
  }

  /** What `readlines()` yields for some file: physical lines, all but the
      last one terminated. */
  predicate FileLines(lines: seq<string>) {
    && (forall k :: 0 <= k < |lines| ==> PhysicalLine(lines[k]))
    && (forall k :: 0 <= k < |lines| - 1 ==> Terminated(lines[k]))
  }

  /** `writelines()`: the content is the lines one after another. */
  function Concat(lines: seq<string>): string {
    if lines == [] then "" else lines[0] + Concat(lines[1..])
  }

  /** `readlines()`: the content cut after every newline. */
  function ReadLines(content: string): (lines: seq<string>)
    ensures FileLines(lines)
    ensures Concat(lines) == content
    decreases |content|
  {
    if content == [] then []
    else if '\n' !in content then
      assert content[..|content| - 1] <= content;
      [content]
    else
      var i := FirstIndex(content, '\n');
      var head, rest := content[..i + 1], ReadLines(content[i + 1..]);
      assert head[..|head| - 1] == content[..i];
      assert content == head + content[i + 1..];
      var lines := [head] + rest;
      assert lines[1..] == rest;
      lines
  }

  /** Reading back what `writelines()` wrote gives the same lines. */
  lemma {:induction false} ReadConcat(lines: seq<string>)
    requires FileLines(lines)
    ensures ReadLines(Concat(lines)) == lines
  {
    if lines != [] {
      var head, rest := lines[0], lines[1..];
      assert Concat(lines) == head + Concat(rest);
      if Terminated(head) {
        assert FileLines(rest) by {
          FileLinesTail(lines);
        }
        ReadConcat(rest);
        ReadLinesCons(head, Concat(rest));
        assert lines == [head] + rest;
      } else {
        assert |lines| == 1;
        assert Concat(rest) == [];
        assert head + [] == head;
        ReadOneLine(head);
      }
    }
  }

  lemma FileLinesTail(lines: seq<string>)
    requires FileLines(lines) && lines != []
    ensures FileLines(lines[1..])
  {
    var rest := lines[1..];
    forall k | 0 <= k < |rest| ensures PhysicalLine(rest[k]) { assert rest[k] == lines[k + 1]; }
    forall k | 0 <= k < |rest| - 1 ensures Terminated(rest[k]) { assert rest[k] == lines[k + 1]; }
  }

  /** A physical line ending in a newline is read as a line of its own. */
  lemma ReadLinesCons(head: string, content: string)
    requires Terminated(head) && PhysicalLine(head)
    ensures ReadLines(head + content) == [head] + ReadLines(content)
  {
    var s := head + content;
    var i := |head| - 1;
    assert s[i] == '\n';
    assert s[..i] == head[..i];
    assert FirstIndex(s, '\n') == i;
    assert s[..i + 1] == head;
    assert s[i + 1..] == content;
  }

  lemma {:induction false} ConcatAppend(a: seq<string>, b: seq<string>)
    ensures Concat(a + b) == Concat(a) + Concat(b)
  {
    if a == [] {
      assert a + b == b;
    } else {
      var x, rest := a[0], a[1..];
      assert Concat(rest + b) == Concat(rest) + Concat(b) by {
        ConcatAppend(rest, b);
      }
      assert a + b == [x] + (rest + b);
      ConcatCons(x, rest + b);
      assert x + (Concat(rest) + Concat(b)) == (x + Concat(rest)) + Concat(b);
    }
  }

  lemma ConcatCons(x: string, rest: seq<string>)
    ensures Concat([x] + rest) == x + Concat(rest)
  {
    assert ([x] + rest)[1..] == rest;
  }

  // ---------------------------------------------------------------------
  // Reading

  /** One line as `read_env_values` reads it: blank lines, `#` comments and
      lines without `=` give nothing; otherwise the stripped text around the
      first `=`. */
  function EnvEntry(line: string): Option<Entry> {
    var t := Strip(line);
    if t == [] || StartsWith(t, "#") || '=' !in t then None
    else
      var (k, v) := SplitOnce(t, '=');
      Some((Strip(k), Strip(v)))
  }

  /** `read_env_values` over the lines of the file; a later line wins. */
  function EnvValues(lines: seq<string>): map<string, string> {
    if lines == [] then map[]
    else
      var front := EnvValues(lines[..|lines| - 1]);
      match EnvEntry(lines[|lines| - 1])
      case None => front
      case Some(e) => front[e.0 := e.1]
  }

  /** `read_env_values()` on the content of the file (empty when it is missing). */
  method ReadEnvValues(content: string) returns (values: map<string, string>)
    ensures values == EnvValues(ReadLines(content))
  {
    var lines := ReadLines(content);
    values := map[];
    for i := 0 to |lines|
      invariant values == EnvValues(lines[..i])
    {
      assert lines[..i + 1][..i] == lines[..i];
      var line := Strip(lines[i]);
      if line == [] || StartsWith(line, "#") || '=' !in line {
        continue;
      }
      var (key, value) := SplitOnce(line, '=');
      values := values[Strip(key) := Strip(value)];
    }
    assert lines[..|lines|] == lines;
  }

  lemma {:induction false} EnvValuesAppend(a: seq<string>, b: seq<string>)
    ensures EnvValues(a + b) == EnvValues(a) + EnvValues(b)
    decreases |b|
  {
    if b == [] {
      assert a + b == a;
    } else {
      var b', x := b[..|b| - 1], b[|b| - 1];
      assert a + b == (a + b') + [x];
      EnvValuesAppend(a, b');
      EnvValuesSnoc(a + b', x);
      EnvValuesSnoc(b', x);
      MapUnionAssoc(EnvValues(a), EnvValues(b'), EntryMap(x));
    }
  }

  /** The pair a line holds, as a map of at most one key. */
  function EntryMap(line: string): map<string, string> {
    match EnvEntry(line)
    case None => map[]
    case Some(e) => map[e.0 := e.1]
  }

  lemma EnvValuesSnoc(lines: seq<string>, x: string)
    ensures EnvValues(lines + [x]) == EnvValues(lines) + EntryMap(x)
  {
    assert (lines + [x])[..|lines|] == lines;
  }

  lemma MapUnionAssoc(a: map<string, string>, b: map<string, string>, c: map<string, string>)
    ensures a + b + c == a + (b + c)
  {
  }

  /** Whitespace after a line (a newline, say) does not change what it holds. */
  lemma EnvEntryPadded(line: string, b: string)
    requires AllSpace(b)
    ensures EnvEntry(line + b) == EnvEntry(line)
  {
    assert line + b == [] + line + b;
    StripIgnoresPadding([], line, b);
  }

  /** A key or value read from a physical line never holds a newline. */
  lemma EnvEntryOneLine(line: string)
    requires PhysicalLine(line)
    ensures EnvEntry(line).Some? ==> '\n' !in EnvEntry(line).value.0 && '\n' !in EnvEntry(line).value.1
  {
    var t, p, q := StripParts(line);
    assert '\n' !in t by {
      assert line == p + t + q;
      assert forall j :: 0 <= j < |t| - 1 ==> line[..|line| - 1][|p| + j] == t[j];
    }
    if EnvEntry(line).Some? {
      var (k, v) := SplitOnce(t, '=');
      assert t == k + "=" + v;
      assert '\n' !in k && '\n' !in v;
      StripKeepsOut(k, '\n');
      StripKeepsOut(v, '\n');
    }
  }

  lemma {:induction false} EnvValuesOneLine(lines: seq<string>)
    requires forall k :: 0 <= k < |lines| ==> PhysicalLine(lines[k])
    ensures forall key | key in EnvValues(lines) :: '\n' !in key && '\n' !in EnvValues(lines)[key]
  {
    if lines != [] {
      EnvValuesOneLine(lines[..|lines| - 1]);
      EnvEntryOneLine(lines[|lines| - 1]);
    }
  }

  // ---------------------------------------------------------------------
  // Updating

  /** The key `update_env_values` sees on a line, or None for a line it
      copies unchanged (blank, a comment, or no `=`). */
  function LineKey(line: string): Option<string> {
    var stripped := Strip(line);
    if stripped == [] || StartsWith(stripped, "#") || '=' !in line then None
    else Some(Strip(SplitOnce(line, '=').0))
  }

  /** `update_env_values` and `read_env_values` agree on which lines hold a
      key and on the key they hold. */
  lemma LineKeyIsEntryKey(line: string)
    ensures LineKey(line).Some? <==> EnvEntry(line).Some?
    ensures LineKey(line).Some? ==> LineKey(line).value == EnvEntry(line).value.0
  {
    var t, p, q := StripParts(line);
    PaddedHas(p, t, q, '=');
    if '=' in t {
      PaddedKey(p, t, q);
    }
  }

  /** A character that is not whitespace is in a padded text exactly when
      it is in the text. */
  lemma PaddedHas(p: string, t: string, q: string, c: char)
    requires AllSpace(p) && AllSpace(q) && !IsSpace(c)
    ensures c in p + t + q <==> c in t
  {
    var line := p + t + q;
    if c in line {
      var j :| 0 <= j < |line| && line[j] == c;
      assert |p| <= j < |p| + |t|;
      assert t[j - |p|] == c;
    }
    if c in t {
      var j :| 0 <= j < |t| && t[j] == c;
      assert line[|p| + j] == c;
    }
  }

  /** The key before the first `=` of a padded text, stripped, is the key
      of the text. */
  lemma PaddedKey(p: string, t: string, q: string)
    requires AllSpace(p) && AllSpace(q) && '=' in t
    ensures Strip(SplitOnce(p + t + q, '=').0) == Strip(SplitOnce(t, '=').0)
  {
    var (a, b) := SplitOnce(t, '=');
    assert '=' !in p by {
      assert forall j :: 0 <= j < |p| ==> p[j] != '=';
    }
    assert p + t + q == (p + a) + "=" + (b + q);
    SplitOnceOf(p + a, '=', b + q);
    assert p + a == p + a + "";
    StripIgnoresPadding(p, a, "");
  }

  /** The line `update_env_values` writes for a key. */
  function Render(key: string, value: string): string {
    key + "=" + value + "\n"
  }

  /** A line after the rewrite pass: a line whose key is being updated is
      replaced by the new `key=value` line, every other line is kept. */
  function RewriteLine(line: string, u: seq<Entry>): string {
    match LineKey(line)
    case None => line
    case Some(k) => if HasKey(u, k) then Render(k, ToMap(u)[k]) else line
  }

  /** The rewrite pass over all lines. */
  function Rewritten(lines: seq<string>, u: seq<Entry>): (r: seq<string>)
    ensures |r| == |lines|
    ensures forall i :: 0 <= i < |lines| ==> r[i] == RewriteLine(lines[i], u)
  {
    if lines == [] then []
    else Rewritten(lines[..|lines| - 1], u) + [RewriteLine(lines[|lines| - 1], u)]
  }

  /** `updated_keys`: the updated keys the rewrite pass found in the file. */
  function FoundKeys(lines: seq<string>, u: seq<Entry>): set<string> {
    if lines == [] then {}
    else
      var front := FoundKeys(lines[..|lines| - 1], u);
      match LineKey(lines[|lines| - 1])
      case None => front
      case Some(k) => if HasKey(u, k) then front + {k} else front
  }

  /** The updates whose key was not found, in the order of `u`. */
  function Missing(u: seq<Entry>, found: set<string>): seq<Entry> {
    if u == [] then []
    else
      var front := Missing(u[..|u| - 1], found);
      var e := u[|u| - 1];
      if e.0 in found then front else front + [e]
  }

  /** Every update left missing is one of the updates. */
  lemma {:induction false} MissingIn(u: seq<Entry>, found: set<string>)
    ensures forall e | e in Missing(u, found) :: e in u
  {
    if u != [] {
      MissingIn(u[..|u| - 1], found);
      assert forall e | e in u[..|u| - 1] :: e in u;
    }
  }

  function Renders(es: seq<Entry>): (r: seq<string>)
    ensures |r| == |es|
    ensures forall i :: 0 <= i < |es| ==> r[i] == Render(es[i].0, es[i].1)
  {
    if es == [] then []
    else Renders(es[..|es| - 1]) + [Render(es[|es| - 1].0, es[|es| - 1].1)]
  }

  /** The updates with an empty key dropped, as the first line of
      `update_env_values` does. */
  function NonEmptyKeys(updates: seq<Entry>): (r: seq<Entry>)
    ensures forall e :: e in r <==> e in updates && e.0 != ""
  {
    if updates == [] then []
    else
      var front := NonEmptyKeys(updates[..|updates| - 1]);
      var e := updates[|updates| - 1];
      assert updates == updates[..|updates| - 1] + [e];
      if e.0 == "" then front else front + [e]
  }

  lemma {:induction false} NonEmptyKeysDistinct(updates: seq<Entry>)
    requires DistinctKeys(updates)
    ensures DistinctKeys(NonEmptyKeys(updates))
  {
    if updates != [] {
      var front := updates[..|updates| - 1];
      NonEmptyKeysDistinct(front);
      var e := updates[|updates| - 1];
      forall x | x in NonEmptyKeys(front) ensures x.0 != e.0 {
        var j :| 0 <= j < |front| && front[j] == x;
      }
    }
  }

  /** `update_env_values` exactly as written: the rewritten lines, then one
      `key=value` line for every update whose key was not found. */
  function UpdatedLinesAsWritten(lines: seq<string>, updates: seq<Entry>): seq<string> {
    var u := NonEmptyKeys(updates);
    if u == [] then lines
    else Rewritten(lines, u) + Renders(Missing(u, FoundKeys(lines, u)))
  }

  /** Lines `added` after `lines`, the last of `lines` first given the
      newline it lacks so that the first added line starts a line of its own. */
  function Attach(lines: seq<string>, added: seq<string>): seq<string> {
    if added != [] && lines != [] && !Terminated(lines[|lines| - 1]) then
      TerminateLast(lines) + added
    else lines + added
  }

  function TerminateLast(lines: seq<string>): seq<string>
    requires lines != []
  {
    lines[..|lines| - 1] + [lines[|lines| - 1] + "\n"]
  }

  /** `update_env_values` as intended: like `UpdatedLinesAsWritten`, but an
      unterminated last line is ended before anything is appended. */
  function UpdatedLines(lines: seq<string>, updates: seq<Entry>): seq<string> {
    var u := NonEmptyKeys(updates);
    if u == [] then lines
    else Attach(Rewritten(lines, u), Renders(Missing(u, FoundKeys(lines, u))))
  }

  /** `update_env_values(updates)` on the content of the file (empty when it
      is missing); returns the content written.  With no non-empty key the
      file is left alone. */
  method UpdateEnvValues(content: string, updates: seq<Entry>) returns (newContent: string)
    ensures newContent == Concat(UpdatedLines(ReadLines(content), updates))
  {
    var u := DropEmptyKeys(updates);
    if u == [] {
      return content;
    }
    var lines := ReadLines(content);
    var newLines, updatedKeys := RewritePass(lines, u);
    newLines := AppendPass(newLines, u, updatedKeys);
    newContent := Concat(newLines);
  }

  /** The first statement of `update_env_values`: keep the updates whose key
      is not empty. */
  method DropEmptyKeys(updates: seq<Entry>) returns (u: seq<Entry>)
    ensures u == NonEmptyKeys(updates)
  {
    u := [];
    for j := 0 to |updates|
      invariant u == NonEmptyKeys(updates[..j])
    {
      assert updates[..j + 1][..j] == updates[..j];
      if updates[j].0 != "" {
        u := u + [updates[j]];
      }
    }
    assert updates[..|updates|] == updates;
  }

  /** The loop of `update_env_values` over the lines read: rewrite the lines of
      updated keys and collect `updated_keys`. */
  method RewritePass(lines: seq<string>, u: seq<Entry>) returns (newLines: seq<string>, updatedKeys: set<string>)
    ensures newLines == Rewritten(lines, u)
    ensures updatedKeys == FoundKeys(lines, u)
  {
    updatedKeys := {};
    newLines := [];
    for i := 0 to |lines|
      invariant newLines == Rewritten(lines[..i], u)
      invariant updatedKeys == FoundKeys(lines[..i], u)
    {
      assert lines[..i + 1][..i] == lines[..i];
      var line := lines[i];
      match LineKey(line)
      case None =>
        newLines := newLines + [line];
      case Some(key) =>
        if HasKey(u, key) {
          newLines := newLines + [Render(key, ToMap(u)[key])];
          updatedKeys := updatedKeys + {key};
        } else {
          newLines := newLines + [line];
        }
    }
    assert lines[..|lines|] == lines;
  }

  /** The loop of `update_env_values` over the updates: append a line for
      every key not found, ending an unterminated last line first. */
  method AppendPass(lines: seq<string>, u: seq<Entry>, updatedKeys: set<string>) returns (newLines: seq<string>)
    ensures newLines == Attach(lines, Renders(Missing(u, updatedKeys)))
  {
    newLines := lines;
    ghost var appended: seq<Entry> := [];
    AttachNothing(lines, u, updatedKeys);
    for j := 0 to |u|
      invariant appended == Missing(u[..j], updatedKeys)
      invariant newLines == Attach(lines, Renders(appended))
    {
      var e := u[j];
      MissingStep(u, j, updatedKeys);
      if e.0 !in updatedKeys {
        AttachStep(lines, appended, e);
        if newLines != [] && !Terminated(newLines[|newLines| - 1]) {
          newLines := TerminateLast(newLines);
        }
        newLines := newLines + [Render(e.0, e.1)];
        appended := appended + [e];
      }
    }
    assert u[..|u|] == u;
  }

  lemma AttachNothing(lines: seq<string>, u: seq<Entry>, found: set<string>)
    ensures Missing(u[..0], found) == [] && Attach(lines, Renders([])) == lines
  {
    assert u[..0] == [];
    assert lines + [] == lines;
  }

  lemma MissingStep(u: seq<Entry>, j: int, found: set<string>)
    requires 0 <= j < |u|
    ensures Missing(u[..j + 1], found)
            == if u[j].0 in found then Missing(u[..j], found) else Missing(u[..j], found) + [u[j]]
  {
    assert u[..j + 1][..j] == u[..j];
  }

  lemma RendersSnoc(es: seq<Entry>, e: Entry)
    ensures Renders(es + [e]) == Renders(es) + [Render(e.0, e.1)]
  {
    assert (es + [e])[..|es|] == es;
  }

  /** Appending the line of one more entry to what `Attach` built. */
  lemma AttachStep(lines: seq<string>, es: seq<Entry>, e: Entry)
    ensures var w := Attach(lines, Renders(es));
            Attach(lines, Renders(es + [e]))
            == (if w != [] && !Terminated(w[|w| - 1]) then TerminateLast(w) else w) + [Render(e.0, e.1)]
  {
    RendersSnoc(es, e);
    RendersTerminated(es);
    AttachOne(lines, Renders(es), Render(e.0, e.1));
  }

  lemma RendersTerminated(es: seq<Entry>)
    ensures forall i :: 0 <= i < |Renders(es)| ==> Terminated(Renders(es)[i])
  {
  }

  /** Appending one more line to what `Attach` built. */
  lemma AttachOne(lines: seq<string>, added: seq<string>, x: string)
    requires forall i :: 0 <= i < |added| ==> Terminated(added[i])
    ensures var w := Attach(lines, added);
            Attach(lines, added + [x]) == (if w != [] && !Terminated(w[|w| - 1]) then TerminateLast(w) else w) + [x]
  {
    var w := Attach(lines, added);
    if added == [] {
      assert added + [x] == [x];
      assert w == lines;
    } else {
      var front := if lines != [] && !Terminated(lines[|lines| - 1]) then TerminateLast(lines) else lines;
      assert w == front + added;
      assert Terminated(w[|w| - 1]) by {
        assert w[|w| - 1] == added[|added| - 1];
      }
      assert Attach(lines, added + [x]) == front + (added + [x]);
      assert front + (added + [x]) == w + [x];
    }
  }

  // ---------------------------------------------------------------------
  // What an update does to the values read back

  predicate ValidKey(k: string) {
    k != [] && Stripped(k) && '=' !in k && '\n' !in k && !StartsWith(k, "#")
  }

  predicate ValidValue(v: string) {
    Stripped(v) && '\n' !in v
  }

  /** A rendered line reads back as the key and value it was made from. */
  lemma AssignmentReadsBack(k: string, v: string)
    requires ValidKey(k) && Stripped(v)
    ensures EnvEntry(k + "=" + v) == Some((k, v))
    ensures LineKey(k + "=" + v) == Some(k)
  {
    var t := k + "=" + v;
    assert Stripped(t) by {
      assert t[0] == k[0];
      if v == [] { assert t[|t| - 1] == '='; } else { assert t[|t| - 1] == v[|v| - 1]; }
    }
    StripOfStripped(t);
    assert !StartsWith(t, "#") by { assert t[0] == k[0]; }
    SplitOnceOf(k, '=', v);
    StripOfStripped(k);
    StripOfStripped(v);
    LineKeyIsEntryKey(t);
  }

  lemma RenderIsLine(k: string, v: string)
    requires '\n' !in k && '\n' !in v
    ensures PhysicalLine(Render(k, v)) && Terminated(Render(k, v))
  {
    assert Render(k, v)[..|Render(k, v)| - 1] == k + "=" + v;
  }

  lemma RenderReadsBack(k: string, v: string)
    requires ValidKey(k) && ValidValue(v)
    ensures EnvEntry(Render(k, v)) == Some((k, v))
    ensures LineKey(Render(k, v)) == Some(k)
    ensures PhysicalLine(Render(k, v)) && Terminated(Render(k, v))
  {
    var t := k + "=" + v;
    AssignmentReadsBack(k, v);
    EnvEntryPadded(t, "\n");
    LineKeyIsEntryKey(Render(k, v));
    RenderIsLine(k, v);
  }

  /** What the rewrite pass does to one line, as `read_env_values` sees it:
      a line holding an updated key now holds the new value. */
  lemma RewriteLineEntry(x: string, u: seq<Entry>)
    requires forall e | e in u :: ValidKey(e.0) && ValidValue(e.1)
    ensures EnvEntry(x).None? ==> EnvEntry(RewriteLine(x, u)).None? && LineKey(x).None?
    ensures EnvEntry(x).Some? ==>
      var k := EnvEntry(x).value.0;
      && LineKey(x) == Some(k)
      && EnvEntry(RewriteLine(x, u)) == Some((k, if HasKey(u, k) then ToMap(u)[k] else EnvEntry(x).value.1))
  {
    LineKeyIsEntryKey(x);
    match LineKey(x)
    case None =>
    case Some(k) =>
      if HasKey(u, k) {
        HasKeyValid(u, k);
        var j :| 0 <= j < |u| && u[j].0 == k;
        assert u[j] in u;
        RenderReadsBack(k, ToMap(u)[k]);
      }
  }

  /** The rewrite pass keeps the set of keys read back. */
  lemma {:induction false} RewrittenKeys(lines: seq<string>, u: seq<Entry>)
    requires forall e | e in u :: ValidKey(e.0) && ValidValue(e.1)
    ensures forall k :: k in EnvValues(Rewritten(lines, u)) <==> k in EnvValues(lines)
  {
    if lines != [] {
      var r := Rewritten(lines, u);
      RewrittenKeys(lines[..|lines| - 1], u);
      assert r[..|r| - 1] == Rewritten(lines[..|lines| - 1], u);
      RewriteLineEntry(lines[|lines| - 1], u);
    }
  }

  /** A key the rewrite pass finds is read from the file and is updated. */
  lemma {:induction false} FoundKeysRead(lines: seq<string>, u: seq<Entry>)
    requires forall e | e in u :: ValidKey(e.0) && ValidValue(e.1)
    ensures forall k | k in FoundKeys(lines, u) :: k in EnvValues(lines) && k in ToMap(u)
  {
    if lines != [] {
      FoundKeysRead(lines[..|lines| - 1], u);
      RewriteLineEntry(lines[|lines| - 1], u);
    }
  }

  /** The rewrite pass gives a key it found its new value and every other
      key its old one. */
  lemma {:induction false} RewrittenValues(lines: seq<string>, u: seq<Entry>)
    requires forall e | e in u :: ValidKey(e.0) && ValidValue(e.1)
    ensures forall k :: k in EnvValues(Rewritten(lines, u)) <==> k in EnvValues(lines)
    ensures forall k | k in FoundKeys(lines, u) :: k in EnvValues(lines) && k in ToMap(u)
    ensures forall k | k in EnvValues(Rewritten(lines, u)) ::
      EnvValues(Rewritten(lines, u))[k] == if k in FoundKeys(lines, u) then ToMap(u)[k] else EnvValues(lines)[k]
  {
    RewrittenKeys(lines, u);
    FoundKeysRead(lines, u);
    if lines != [] {
      var front, x := lines[..|lines| - 1], lines[|lines| - 1];
      var r := Rewritten(lines, u);
      RewrittenValues(front, u);
      assert r[..|r| - 1] == Rewritten(front, u);
      RewriteLineEntry(x, u);
    }
  }

  lemma HasKeyIn(u: seq<Entry>, k: string)
    ensures HasKey(u, k) <==> k in ToMap(u)
  {
  }

  lemma HasKeyValid(u: seq<Entry>, k: string)
    requires forall e | e in u :: ValidKey(e.0) && ValidValue(e.1)
    requires HasKey(u, k)
    ensures k in ToMap(u) && ValidValue(ToMap(u)[k])
  {
    if |u| > 0 {
      var last := u[|u| - 1];
      assert last in u;
      if k != last.0 {
        var j :| 0 <= j < |u| && u[j].0 == k;
        assert u[..|u| - 1][j] == u[j];
        forall e | e in u[..|u| - 1] ensures ValidKey(e.0) && ValidValue(e.1) {
          var i :| 0 <= i < |u| - 1 && u[..|u| - 1][i] == e;
          assert u[i] == e;
        }
        HasKeyValid(u[..|u| - 1], k);
      }
    }
  }

  lemma {:induction false} RendersValues(es: seq<Entry>)
    requires forall e | e in es :: ValidKey(e.0) && ValidValue(e.1)
    ensures EnvValues(Renders(es)) == ToMap(es)
  {
    if es != [] {
      var front, e := es[..|es| - 1], es[|es| - 1];
      assert e in es;
      forall x | x in front ensures ValidKey(x.0) && ValidValue(x.1) {
        var i :| 0 <= i < |front| && front[i] == x;
        assert es[i] == x;
      }
      RendersValues(front);
      assert Renders(es)[..|es| - 1] == Renders(front);
      RenderReadsBack(e.0, e.1);
    }
  }

  /** The appended updates are exactly those whose key was not found. */
  lemma {:induction false} MissingMap(u: seq<Entry>, found: set<string>)
    ensures forall k :: k in ToMap(Missing(u, found)) <==> k in ToMap(u) && k !in found
    ensures forall k | k in ToMap(Missing(u, found)) :: ToMap(Missing(u, found))[k] == ToMap(u)[k]
  {
    if u != [] {
      var u', e := u[..|u| - 1], u[|u| - 1];
      MissingMap(u', found);
      var front := Missing(u', found);
      if e.0 !in found {
        assert Missing(u, found) == front + [e];
        assert (front + [e])[..|front|] == front;
      } else {
        assert Missing(u, found) == front;
      }
    }
  }

  /** Ending the last line with a newline changes no value read back. */
  lemma TerminateLastValues(lines: seq<string>)
    requires lines != []
    ensures EnvValues(TerminateLast(lines)) == EnvValues(lines)
  {
    var w, x := TerminateLast(lines), lines[|lines| - 1];
    assert w[..|w| - 1] == lines[..|lines| - 1];
    assert w[|w| - 1] == x + "\n";
    EnvEntryPadded(x, "\n");
  }

  lemma AttachValues(lines: seq<string>, added: seq<string>)
    ensures EnvValues(Attach(lines, added)) == EnvValues(lines) + EnvValues(added)
  {
    if added != [] && lines != [] && !Terminated(lines[|lines| - 1]) {
      EnvValuesAppend(TerminateLast(lines), added);
      TerminateLastValues(lines);
    } else {
      EnvValuesAppend(lines, added);
    }
  }

  /** The rewrite pass keeps every line a physical line and keeps every
      terminated line terminated. */
  lemma RewrittenPhysical(lines: seq<string>, u: seq<Entry>)
    requires forall k :: 0 <= k < |lines| ==> PhysicalLine(lines[k])
    requires forall e | e in u :: ValidKey(e.0) && ValidValue(e.1)
    ensures forall i :: 0 <= i < |lines| ==>
      PhysicalLine(Rewritten(lines, u)[i]) && (Terminated(lines[i]) ==> Terminated(Rewritten(lines, u)[i]))
  {
    forall i | 0 <= i < |lines|
      ensures PhysicalLine(RewriteLine(lines[i], u)) && (Terminated(lines[i]) ==> Terminated(RewriteLine(lines[i], u)))
    {
      match LineKey(lines[i])
      case None =>
      case Some(k) =>
        if HasKey(u, k) {
          HasKeyValid(u, k);
          var j :| 0 <= j < |u| && u[j].0 == k;
          assert u[j] in u;
          RenderReadsBack(k, ToMap(u)[k]);
        }
    }
  }

  lemma RendersPhysical(es: seq<Entry>)
    requires forall e | e in es :: ValidKey(e.0) && ValidValue(e.1)
    ensures forall i :: 0 <= i < |es| ==> PhysicalLine(Renders(es)[i]) && Terminated(Renders(es)[i])
  {
    forall i | 0 <= i < |es| ensures PhysicalLine(Renders(es)[i]) && Terminated(Renders(es)[i]) {
      assert es[i] in es;
      RenderReadsBack(es[i].0, es[i].1);
    }
  }

  lemma AttachFileLines(lines: seq<string>, added: seq<string>)
    requires FileLines(lines)
    requires forall i :: 0 <= i < |added| ==> PhysicalLine(added[i]) && Terminated(added[i])
    ensures FileLines(Attach(lines, added))
  {
    var w := Attach(lines, added);
    if added != [] && lines != [] && !Terminated(lines[|lines| - 1]) {
      var x := lines[|lines| - 1];
      assert (x + "\n")[..|x + "\n"| - 1] == x;
      forall i | 0 <= i < |w| ensures PhysicalLine(w[i]) && (i < |w| - 1 ==> Terminated(w[i])) {
        if i < |lines| - 1 { assert w[i] == lines[i]; }
        else if i == |lines| - 1 { assert w[i] == x + "\n"; }
        else { assert w[i] == added[i - |lines|]; }
      }
    } else {
      forall i | 0 <= i < |w| ensures PhysicalLine(w[i]) && (i < |w| - 1 ==> Terminated(w[i])) {
        if i < |lines| { assert w[i] == lines[i]; } else { assert w[i] == added[i - |lines|]; }
      }
    }
  }

  /** The lines written are again the lines of a file. */
  lemma UpdatedLinesWellFormed(lines: seq<string>, updates: seq<Entry>)
    requires FileLines(lines)
    requires forall e | e in updates && e.0 != "" :: ValidKey(e.0) && ValidValue(e.1)
    ensures FileLines(UpdatedLines(lines, updates))
  {
    var u := NonEmptyKeys(updates);
    if u != [] {
      var missing := Missing(u, FoundKeys(lines, u));
      MissingIn(u, FoundKeys(lines, u));
      RewrittenPhysical(lines, u);
      RendersPhysical(missing);
      AttachFileLines(Rewritten(lines, u), Renders(missing));
    }
  }

  lemma MergeFound(before: map<string, string>, rewritten: map<string, string>,
                   appended: map<string, string>, m: map<string, string>, found: set<string>)
    requires forall k :: k in rewritten <==> k in before
    requires forall k | k in found :: k in before && k in m
    requires forall k | k in rewritten :: rewritten[k] == if k in found then m[k] else before[k]
    requires forall k :: k in appended <==> k in m && k !in found
    requires forall k | k in appended :: appended[k] == m[k]
    ensures rewritten + appended == before + m
  {
    var l, r := rewritten + appended, before + m;
    assert l.Keys == r.Keys;
    forall k | k in l ensures l[k] == r[k] {
      if k in appended {
      } else if k in found {
      } else {
        assert k !in m;
      }
    }
  }

  /** The values read from the written lines: the old ones overridden by
      every update with a non-empty key. */
  lemma UpdatedValues(lines: seq<string>, updates: seq<Entry>)
    requires forall e | e in updates && e.0 != "" :: ValidKey(e.0) && ValidValue(e.1)
    ensures EnvValues(UpdatedLines(lines, updates)) == EnvValues(lines) + ToMap(NonEmptyKeys(updates))
  {
    var u := NonEmptyKeys(updates);
    if u != [] {
      var found := FoundKeys(lines, u);
      var missing := Missing(u, found);
      MissingIn(u, found);
      RewrittenValues(lines, u);
      AttachValues(Rewritten(lines, u), Renders(missing));
      RendersValues(missing);
      MissingMap(u, found);
      MergeFound(EnvValues(lines), EnvValues(Rewritten(lines, u)), ToMap(missing), ToMap(u), found);
    } else {
      assert ToMap(u) == map[];
    }
  }

  /** The point of `update_env_values`: reading the file back gives the old
      values overridden by every update with a non-empty key, and nothing else
      changes. */
  lemma UpdateThenRead(content: string, updates: seq<Entry>)
    requires forall e | e in updates && e.0 != "" :: ValidKey(e.0) && ValidValue(e.1)
    ensures EnvValues(ReadLines(Concat(UpdatedLines(ReadLines(content), updates))))
         == EnvValues(ReadLines(content)) + ToMap(NonEmptyKeys(updates))
  {
    var lines := ReadLines(content);
    UpdatedLinesWellFormed(lines, updates);
    ReadConcat(UpdatedLines(lines, updates));
    UpdatedValues(lines, updates);
  }

  /** Updating one key: it reads back with the new value and every other
      key reads as before. */
  lemma UpdateOneThenRead(content: string, key: string, value: string)
    requires ValidKey(key) && ValidValue(value)
    ensures var after := EnvValues(ReadLines(Concat(UpdatedLines(ReadLines(content), [(key, value)]))));
            && Get(after, key) == Some(value)
            && forall k | k != key :: Get(after, k) == Get(EnvValues(ReadLines(content)), k)
  {
    var u := [(key, value)];
    var before := EnvValues(ReadLines(content));
    var after := EnvValues(ReadLines(Concat(UpdatedLines(ReadLines(content), u))));
    assert ToMap(NonEmptyKeys(u)) == map[key := value] by {
      assert u[..0] == [];
      assert NonEmptyKeys(u) == u;
    }
    assert after == before + map[key := value] by {
      UpdateThenRead(content, u);
    }
    OverrideOne(before, after, key, value);
  }

  lemma OverrideOne(before: map<string, string>, after: map<string, string>, key: string, value: string)
    requires after == before + map[key := value]
    ensures Get(after, key) == Some(value)
    ensures forall k | k != key :: Get(after, k) == Get(before, k)
  {
  }

  /** When the file is empty or ends with a newline the code as written and
      the intended behaviour agree. */
  lemma AsWrittenWhenTerminated(lines: seq<string>, updates: seq<Entry>)
    requires lines == [] || Terminated(lines[|lines| - 1])
    ensures UpdatedLinesAsWritten(lines, updates) == UpdatedLines(lines, updates)
  {
    var u := NonEmptyKeys(updates);
    if u != [] && lines != [] {
      var r := Rewritten(lines, u);
      assert Terminated(r[|r| - 1]) by {
        RewriteKeepsTerminated(lines[|lines| - 1], u);
      }
    }
  }

  /** When every key being updated is already in the file nothing is
      appended, so the code as written and the intended behaviour agree. */
  lemma AsWrittenWhenPresent(lines: seq<string>, updates: seq<Entry>)
    requires forall e | e in updates && e.0 != "" :: e.0 in EnvValues(lines)
    ensures UpdatedLinesAsWritten(lines, updates) == UpdatedLines(lines, updates)
  {
    var u := NonEmptyKeys(updates);
    if u != [] {
      var found := FoundKeys(lines, u);
      FoundKeysComplete(lines, u);
      forall e | e in u ensures e.0 in found {
        assert HasKey(u, e.0) by {
          var i :| 0 <= i < |u| && u[i] == e;
        }
      }
      MissingNone(u, found);
      assert Rewritten(lines, u) + [] == Rewritten(lines, u);
    }
  }

  /** A key read from the file that is being updated is found by the
      rewrite pass. */
  lemma {:induction false} FoundKeysComplete(lines: seq<string>, u: seq<Entry>)
    ensures forall k | k in EnvValues(lines) && HasKey(u, k) :: k in FoundKeys(lines, u)
  {
    if lines != [] {
      FoundKeysComplete(lines[..|lines| - 1], u);
      LineKeyIsEntryKey(lines[|lines| - 1]);
    }
  }

  /** Nothing is missing when every update's key was found. */
  lemma {:induction false} MissingNone(u: seq<Entry>, found: set<string>)
    requires forall e | e in u :: e.0 in found
    ensures Missing(u, found) == []
  {
    if u != [] {
      assert u[|u| - 1] in u;
      forall e | e in u[..|u| - 1] ensures e.0 in found {
        var i :| 0 <= i < |u| - 1 && u[..|u| - 1][i] == e;
        assert u[i] == e;
      }
      MissingNone(u[..|u| - 1], found);
    }
  }

  /** The rewrite pass keeps a line's newline. */
  lemma RewriteKeepsTerminated(x: string, u: seq<Entry>)
    requires Terminated(x)
    ensures Terminated(RewriteLine(x, u))
  {
    match LineKey(x)
    case None =>
    case Some(k) =>
  }

  /** The defect of the code as written: appending to a file whose last line
      has no newline glues the new line onto it, so the new key is lost and
      the old key's value is corrupted.  For instance a file holding just
      `A=1`, updated with `B=2`, becomes `A=1B=2` and reads back as `A` = `1B=2`. */
  lemma AsWrittenGluesLastLine(k1: string, v1: string, k2: string, v2: string)
    requires ValidKey(k1) && ValidValue(v1) && ValidKey(k2) && ValidValue(v2) && k1 != k2
    ensures var written := Concat(UpdatedLinesAsWritten(ReadLines(k1 + "=" + v1), [(k2, v2)]));
            && written == k1 + "=" + v1 + k2 + "=" + v2 + "\n"
            && EnvValues(ReadLines(written)) == map[k1 := v1 + k2 + "=" + v2]
  {
    var v := v1 + k2 + "=" + v2;
    AppendsAfterLastLine(k1, v1, k2, v2);
    GluedText(k1, v1, k2, v2);
    GluedValueValid(v1, k2, v2);
    SingleLineReads(k1, v);
  }

  /** The two lines run together are one `key=value` line. */
  lemma GluedText(k1: string, v1: string, k2: string, v2: string)
    ensures k1 + "=" + v1 + Render(k2, v2) == Render(k1, v1 + k2 + "=" + v2)
    ensures Render(k1, v1 + k2 + "=" + v2) == k1 + "=" + v1 + k2 + "=" + v2 + "\n"
  {
    var x, y := k1 + "=", k2 + "=" + v2;
    Assoc(x + v1, y, "\n");
    Assoc(x, v1, y);
    Assoc(v1, k2 + "=", v2);
    Assoc(v1, k2, "=");
    Assoc(x, v1, k2);
    Assoc(x, v1 + k2, "=");
    Assoc(x, v1 + k2 + "=", v2);
  }

  lemma GluedValueValid(v1: string, k2: string, v2: string)
    requires ValidValue(v1) && ValidKey(k2) && ValidValue(v2)
    ensures ValidValue(v1 + k2 + "=" + v2)
  {
    var v := v1 + k2 + "=" + v2;
    if v1 != [] { assert v[0] == v1[0]; } else { assert v[0] == k2[0]; }
    if v2 != [] { assert v[|v| - 1] == v2[|v2| - 1]; } else { assert v[|v| - 1] == '='; }
    assert '\n' !in v;
  }

  lemma Assoc(a: string, b: string, c: string)
    ensures a + (b + c) == a + b + c
  {
  }

  lemma AppendsAfterLastLine(k1: string, v1: string, k2: string, v2: string)
    requires ValidKey(k1) && ValidValue(v1) && ValidKey(k2) && ValidValue(v2) && k1 != k2
    ensures Concat(UpdatedLinesAsWritten(ReadLines(k1 + "=" + v1), [(k2, v2)])) == k1 + "=" + v1 + Render(k2, v2)
  {
    var content := k1 + "=" + v1;
    assert '\n' !in content;
    AssignmentReadsBack(k1, v1);
    ReadOneLine(content);
    AsWrittenOneLine(content, k1, (k2, v2));
    ConcatTwo(content, Render(k2, v2));
  }

  /** The code as written on a one-line file whose key is not updated: the
      new line comes right after the old one. */
  lemma AsWrittenOneLine(line: string, k1: string, e: Entry)
    requires LineKey(line) == Some(k1)
    requires e.0 != "" && k1 != e.0
    ensures UpdatedLinesAsWritten([line], [e]) == [line] + [Render(e.0, e.1)]
  {
    NonEmptyOne(e);
    assert !HasKey([e], k1) by {
      assert forall i :: 0 <= i < |[e]| ==> [e][i].0 == e.0;
    }
    KeptLine(line, [e]);
    RendersMissingOne(e);
    AsWrittenParts([line], [e]);
  }

  lemma AsWrittenParts(lines: seq<string>, updates: seq<Entry>)
    requires NonEmptyKeys(updates) != []
    ensures var u := NonEmptyKeys(updates);
            UpdatedLinesAsWritten(lines, updates) == Rewritten(lines, u) + Renders(Missing(u, FoundKeys(lines, u)))
  {
  }

  lemma ReadOneLine(content: string)
    requires content != [] && '\n' !in content
    ensures ReadLines(content) == [content]
  {
  }

  lemma NonEmptyOne(e: Entry)
    requires e.0 != ""
    ensures NonEmptyKeys([e]) == [e]
  {
    assert [e][..0] == [];
  }

  /** A lone line whose key is not updated is kept and found nothing. */
  lemma KeptLine(line: string, u: seq<Entry>)
    requires LineKey(line).Some? && !HasKey(u, LineKey(line).value)
    ensures Rewritten([line], u) == [line]
    ensures FoundKeys([line], u) == {}
  {
    assert [line][..0] == [];
  }

  lemma RendersMissingOne(e: Entry)
    ensures Renders(Missing([e], {})) == [Render(e.0, e.1)]
  {
    assert [e][..0] == [];
    assert Missing([e], {}) == [e];
  }

  lemma ConcatTwo(a: string, b: string)
    ensures Concat([a] + [b]) == a + b
  {
    assert ([a] + [b])[1..] == [b];
    assert Concat([b]) == b + Concat([]);
  }

  /** A file of one `key=value` line reads back as that one pair. */
  lemma SingleLineReads(k: string, v: string)
    requires ValidKey(k) && ValidValue(v)
    ensures EnvValues(ReadLines(Render(k, v))) == map[k := v]
  {
    var r := Render(k, v);
    assert ReadLines(r) == [r] by {
      RenderIsLine(k, v);
      assert Concat([r]) == r + Concat([]);
      assert r + "" == r;
      assert FileLines([r]);
      ReadConcat([r]);
    }
    assert EnvEntry(r) == Some((k, v)) by {
      RenderReadsBack(k, v);
    }
    assert [r][..0] == [];
  }
}
