/** The checks the bot applies to typed input before acting on it: client
    names (src/vpn_bot.py:2032), certificate days (2085), alert thresholds
    (1386, 1403) and `id:name` mapping lines (1087). */
module Validation {
  import opened Wrappers
  import opened Text

  const MaxNameLength: nat := 32
  const MaxDays: nat := 1825
  const MaxThreshold: nat := 100

  // ---------------------------------------------------------------------
  // Client names: ^[a-zA-Z0-9_.-]{1,32}$

  predicate AsciiLetterOrDigit(c: char) {
    'a' <= c <= 'z' || 'A' <= c <= 'Z' || '0' <= c <= '9'
  }

  predicate NameChar(c: char) {
    AsciiLetterOrDigit(c) || c == '_' || c == '.' || c == '-'
  }

  /** One to 32 characters, each a letter, digit, `_`, `.` or `-`. */
  predicate NameBody(s: string) {
    1 <= |s| <= MaxNameLength && forall i :: 0 <= i < |s| ==> NameChar(s[i])
  }

  /** `re.match(r"^[a-zA-Z0-9_.-]{1,32}$", s)`: Python's `$` also matches
      just before a final newline. */
  predicate ClientNameMatches(s: string) {
    NameBody(s) || (|s| > 0 && s[|s| - 1] == '\n' && NameBody(s[..|s| - 1]))
  }

  /** The handler strips the text first, so the pattern accepts exactly the
      names of the allowed shape: never one with a line break, a space or a
      character the shell would interpret. */
  lemma StrippedNameMatches(s: string)
    requires Stripped(s)
    ensures ClientNameMatches(s) <==> NameBody(s)
    ensures ClientNameMatches(s) ==> forall i :: 0 <= i < |s| ==> !IsSpace(s[i]) && s[i] != ',' && s[i] != ':' && s[i] != '|'
  {
    if ClientNameMatches(s) {
      assert s != [] && !IsSpace(s[|s| - 1]);
    }
  }

  // ---------------------------------------------------------------------
  // Numbers: str.isdigit() and a range

  /** `days.isdigit() and 1 <= int(days) <= 1825`. */
  predicate DaysAccepted(s: string) {
    IsDigits(s) && 1 <= DigitsValue(s) <= MaxDays
  }

  /** `value.isdigit() and 1 <= int(value) <= 100`. */
  predicate ThresholdAccepted(s: string) {
    IsDigits(s) && 1 <= DigitsValue(s) <= MaxThreshold
  }

  /** A number written out in decimal is accepted as days exactly when it
      lies in 1..1825. */
  lemma DaysAcceptedRange(n: nat)
    ensures DaysAccepted(NatToString(n)) <==> 1 <= n <= MaxDays
  {
  }

  /** A number written out in decimal is accepted as a threshold exactly
      when it lies in 1..100. */
  lemma ThresholdAcceptedRange(n: nat)
    ensures ThresholdAccepted(NatToString(n)) <==> 1 <= n <= MaxThreshold
  {
  }

  /** Accepted days are a single word of digits. */
  lemma AcceptedDaysAreOneWord(s: string)
    requires DaysAccepted(s)
    ensures ' ' !in s && Stripped(s)
  {
    assert forall i :: 0 <= i < |s| ==> IsDigit(s[i]);
  }

  // ---------------------------------------------------------------------
  // Mapping lines: ^(\d+)\s*:\s*([a-zA-Z0-9_-]{1,32})$

  predicate MappingNameChar(c: char) {
    AsciiLetterOrDigit(c) || c == '_' || c == '-'
  }

  predicate MappingNameBody(s: string) {
    1 <= |s| <= MaxNameLength && forall i :: 0 <= i < |s| ==> MappingNameChar(s[i])
  }

  predicate AllDigits(s: string) {
    forall i :: 0 <= i < |s| ==> IsDigit(s[i])
  }

  /** The length of the run of digits `s` starts with. */
  function DigitRun(s: string): (n: nat)
    ensures n <= |s|
  {
    if s != [] && IsDigit(s[0]) then 1 + DigitRun(s[1..]) else 0
  }

  /** The length of the run of whitespace `s` starts with. */
  function SpaceRun(s: string): (n: nat)
    ensures n <= |s|
  {
    if s != [] && IsSpace(s[0]) then 1 + SpaceRun(s[1..]) else 0
  }

  lemma {:induction false} DigitRunShape(s: string)
    ensures AllDigits(s[..DigitRun(s)])
    ensures DigitRun(s) < |s| ==> !IsDigit(s[DigitRun(s)])
  {
    if s != [] && IsDigit(s[0]) {
      DigitRunShape(s[1..]);
      assert s[..DigitRun(s)] == [s[0]] + s[1..][..DigitRun(s[1..])];
    }
  }

  lemma {:induction false} SpaceRunShape(s: string)
    ensures AllSpace(s[..SpaceRun(s)])
    ensures SpaceRun(s) < |s| ==> !IsSpace(s[SpaceRun(s)])
  {
    if s != [] && IsSpace(s[0]) {
      SpaceRunShape(s[1..]);
      assert s[..SpaceRun(s)] == [s[0]] + s[1..][..SpaceRun(s[1..])];
    }
  }

  lemma {:induction false} DigitRunOf(a: string, b: string)
    requires AllDigits(a) && (b == [] || !IsDigit(b[0]))
    ensures DigitRun(a + b) == |a|
  {
    if a != [] {
      assert (a + b)[1..] == a[1..] + b;
      DigitRunOf(a[1..], b);
    }
  }

  lemma {:induction false} SpaceRunOf(a: string, b: string)
    requires AllSpace(a) && (b == [] || !IsSpace(b[0]))
    ensures SpaceRun(a + b) == |a|
  {
    if a != [] {
      assert (a + b)[1..] == a[1..] + b;
      SpaceRunOf(a[1..], b);
    }
  }

  /** `s` cut after its leading digits. */
  function CutDigits(s: string): (string, string) {
    (s[..DigitRun(s)], s[DigitRun(s)..])
  }

  /** `s` without its leading whitespace. */
  function SkipSpace(s: string): string {
    s[SpaceRun(s)..]
  }

  /** The name group and the end of the pattern. */
  function NameGroup(s: string): Option<string> {
    if MappingNameBody(s) then Some(s)
    else if |s| > 0 && s[|s| - 1] == '\n' && MappingNameBody(s[..|s| - 1]) then Some(s[..|s| - 1])
    else None
  }

  /** The `(id, name)` groups of `re.match(r"^(\d+)\s*:\s*([a-zA-Z0-9_-]{1,32})$", p)`,
      or None when it does not match. */
  function MatchMapping(p: string): Option<(string, string)> {
    var (id, rest) := CutDigits(p);
    if id == [] then None
    else
      var after := SkipSpace(rest);
      if after == [] || after[0] != ':' then None
      else
        match NameGroup(SkipSpace(after[1..]))
        case None => None
        case Some(name) => Some((id, name))
  }

  /** The shape the pattern describes, with the optional final newline `$`
      allows. */
  predicate MappingShape(p: string, id: string, w1: string, w2: string, name: string, nl: string) {
    && p == id + w1 + ":" + w2 + name + nl
    && |id| > 0 && AllDigits(id) && AllSpace(w1) && AllSpace(w2)
    && MappingNameBody(name) && (nl == [] || nl == "\n")
  }

  lemma NameCharNotSpace(c: char)
    requires MappingNameChar(c)
    ensures !IsSpace(c) && c != ',' && c != ':' && c != '\n'
  {
  }

  lemma NameGroupOf(name: string, nl: string)
    requires MappingNameBody(name) && (nl == [] || nl == "\n")
    ensures NameGroup(name + nl) == Some(name)
  {
    if nl != [] {
      assert !MappingNameBody(name + nl) by {
        assert (name + nl)[|name|] == '\n';
      }
      assert (name + nl)[..|name|] == name;
    } else {
      assert name + nl == name;
    }
  }

  /** The matcher's steps, each given: the digits, the colon after the
      spaces, and the name group after the spaces. */
  lemma MatchOfSteps(p: string, id: string, rest: string, tail: string, name: string)
    requires CutDigits(p) == (id, rest) && id != []
    requires SkipSpace(rest) == ":" + tail
    requires NameGroup(SkipSpace(tail)) == Some(name)
    ensures MatchMapping(p) == Some((id, name))
  {
    assert (":" + tail)[1..] == tail;
  }

  lemma CutDigitsOf(id: string, rest: string)
    requires |id| > 0 && AllDigits(id) && rest != [] && !IsDigit(rest[0])
    ensures CutDigits(id + rest) == (id, rest)
  {
    DigitRunOf(id, rest);
    assert (id + rest)[..|id|] == id && (id + rest)[|id|..] == rest;
  }

  lemma SkipSpaceOf(w: string, s: string)
    requires AllSpace(w) && s != [] && !IsSpace(s[0])
    ensures SkipSpace(w + s) == s
  {
    SpaceRunOf(w, s);
    assert (w + s)[|w|..] == s;
  }

  /** Every line of the described shape matches, with its digits and name as
      the groups. */
  lemma MatchMappingComplete(id: string, w1: string, w2: string, name: string, nl: string)
    requires MappingShape(id + w1 + ":" + w2 + name + nl, id, w1, w2, name, nl)
    ensures MatchMapping(id + w1 + ":" + w2 + name + nl) == Some((id, name))
  {
    var body := name + nl;
    var tail := w2 + body;
    var rest := w1 + (":" + tail);
    assert id + w1 + ":" + w2 + name + nl == id + rest by {
      Glue(id, w1, w2, name, nl);
    }
    assert rest[0] == if w1 == [] then ':' else w1[0];
    CutDigitsOf(id, rest);
    SkipSpaceOf(w1, ":" + tail);
    assert body[0] == name[0];
    NameCharNotSpace(name[0]);
    SkipSpaceOf(w2, body);
    NameGroupOf(name, nl);
    MatchOfSteps(id + rest, id, rest, tail, name);
  }

  /** Every match has the described shape: the groups are the leading
      digits and the name, separated by a colon and whitespace. */
  lemma MatchMappingSound(p: string) returns (w1: string, w2: string, nl: string)
    requires MatchMapping(p).Some?
    ensures MappingShape(p, MatchMapping(p).value.0, w1, w2, MatchMapping(p).value.1, nl)
  {
    var id, rest := CutDigits(p).0, CutDigits(p).1;
    var name := MatchMapping(p).value.1;
    MatchParts(p);
    CutDigitsShape(p);
    var after := SkipSpace(rest);
    w1 := SkipSpaceShape(rest);
    var tail := after[1..];
    ColonFirst(after);
    var body := SkipSpace(tail);
    w2 := SkipSpaceShape(tail);
    nl := NameGroupShape(body);
    Chain(p, id, rest, w1, after, tail, w2, body, name, nl);
  }

  lemma CutDigitsShape(p: string)
    ensures p == CutDigits(p).0 + CutDigits(p).1 && AllDigits(CutDigits(p).0)
  {
    DigitRunShape(p);
  }

  lemma ColonFirst(after: string)
    requires after != [] && after[0] == ':'
    ensures after == ":" + after[1..]
  {
  }

  lemma Chain(p: string, id: string, rest: string, w1: string, after: string, tail: string,
              w2: string, body: string, name: string, nl: string)
    requires p == id + rest && rest == w1 + after && after == ":" + tail
    requires tail == w2 + body && body == name + nl
    ensures p == id + w1 + ":" + w2 + name + nl
  {
    Glue(id, w1, w2, name, nl);
  }

  /** What a match consists of, step by step. */
  lemma MatchParts(p: string)
    requires MatchMapping(p).Some?
    ensures var (id, rest) := CutDigits(p);
            && id != [] && MatchMapping(p).value.0 == id
            && SkipSpace(rest) != [] && SkipSpace(rest)[0] == ':'
            && NameGroup(SkipSpace(SkipSpace(rest)[1..])) == Some(MatchMapping(p).value.1)
  {
  }

  lemma SkipSpaceShape(s: string) returns (w: string)
    ensures s == w + SkipSpace(s) && AllSpace(w)
  {
    w := s[..SpaceRun(s)];
    SpaceRunShape(s);
  }

  lemma NameGroupShape(body: string) returns (nl: string)
    requires NameGroup(body).Some?
    ensures body == NameGroup(body).value + nl && (nl == [] || nl == "\n")
    ensures MappingNameBody(NameGroup(body).value)
  {
    if MappingNameBody(body) {
      nl := [];
    } else {
      nl := "\n";
      assert body == body[..|body| - 1] + [body[|body| - 1]];
    }
  }

  lemma Glue(id: string, w1: string, w2: string, name: string, nl: string)
    ensures id + (w1 + (":" + (w2 + (name + nl)))) == id + w1 + ":" + w2 + name + nl
  {
  }

  /** The groups of a match are a mapping id and name the stored mapping
      reads back unchanged: non-empty, unpadded, without `,`, `:` or line
      breaks. */
  lemma MatchedPairIsStorable(p: string)
    requires MatchMapping(p).Some?
    ensures var (id, name) := MatchMapping(p).value;
            && id != [] && Stripped(id) && ',' !in id && ':' !in id && '\n' !in id
            && name != [] && Stripped(name) && ',' !in name && '\n' !in name && ':' !in name
  {
    var w1, w2, nl := MatchMappingSound(p);
    var (id, name) := MatchMapping(p).value;
    DigitsStorable(id);
    NameStorable(name);
  }

  lemma DigitsStorable(id: string)
    requires |id| > 0 && AllDigits(id)
    ensures Stripped(id) && ',' !in id && ':' !in id && '\n' !in id
  {
    assert !IsSpace(id[0]) && !IsSpace(id[|id| - 1]) by {
      DigitNotSpace(id[0]);
      DigitNotSpace(id[|id| - 1]);
    }
  }

  lemma DigitNotSpace(c: char)
    requires IsDigit(c)
    ensures !IsSpace(c)
  {
  }

  lemma NameStorable(name: string)
    requires MappingNameBody(name)
    ensures Stripped(name) && ',' !in name && ':' !in name && '\n' !in name
  {
    forall i | 0 <= i < |name| ensures name[i] != ',' && name[i] != ':' && name[i] != '\n' {
      NameCharNotSpace(name[i]);
    }
    NameCharNotSpace(name[0]);
    NameCharNotSpace(name[|name| - 1]);
  }
}
