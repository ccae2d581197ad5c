/** `upsert_ini_section` (src/main.rs): set keys in one section of an INI text and touch nothing else. */
module IniUpsert {
  import opened Prelude
  import opened Text

  // ---------------------------------------------------------------- text

  /** The lines joined by newlines, and a final newline. */
  function JoinLines(lines: seq<string>): string
    requires lines != []
  {
    lines[0] + "\n" + if |lines| == 1 then "" else JoinLines(lines[1..])
  }

  /** A text that comes back as it is when it is written as a line and read again. */
  predicate OneLine(s: string) {
    '\n' !in s && (|s| > 0 ==> s[|s| - 1] != '\r')
  }

  lemma FirstOfJoined(line: string, rest: string)
    requires OneLine(line)
    ensures Lines(line + "\n" + rest) == [line] + Lines(rest)
  {
    var s := line + "\n" + rest;
    assert s == line + ("\n" + rest);
    BeforeFirst(line, "\n" + rest, '\n');
    assert s[|line| + 1..] == rest;
  }

  lemma {:induction false} LinesOfJoined(lines: seq<string>)
    requires lines != [] && forall i :: 0 <= i < |lines| ==> OneLine(lines[i])
    ensures Lines(JoinLines(lines)) == lines
  {
    if |lines| == 1 {
      FirstOfJoined(lines[0], "");
      assert lines == [lines[0]] + [];
    } else {
      FirstOfJoined(lines[0], JoinLines(lines[1..]));
      LinesOfJoined(lines[1..]);
      assert lines == [lines[0]] + lines[1..];
    }
  }

  /** Every line as read is one again when written: a `\r` is only found before a `\n`, and once. */
  ghost predicate Settled(content: string) {
    PlainLines(Lines(content))
  }

  ghost predicate PlainLines(lines: seq<string>) {
    forall i :: 0 <= i < |lines| ==> OneLine(lines[i])
  }

  /** Every `\r` stands right before a `\n`. */
  predicate ReturnsEndLines(s: string) {
    forall i :: 0 <= i < |s| && s[i] == '\r' ==> i + 1 < |s| && s[i + 1] == '\n'
  }

  lemma {:induction false} ReturnsEndLinesIsSettled(s: string)
    requires ReturnsEndLines(s)
    ensures Settled(s)
    decreases |s|
  {
    var raw := Before(s, '\n');
    BeforeIsPrefix(s, '\n');
    forall i | 0 <= i < |raw| - 1 || (i == |raw| - 1 && |raw| == |s|)
      ensures 0 <= i ==> raw[i] != '\r'
    {
      assert 0 <= i ==> raw[i] == s[i];
      assert 0 <= i < |raw| - 1 ==> raw[i + 1] == s[i + 1] && raw[i + 1] in raw;
    }
    if |raw| < |s| {
      var rest := s[|raw| + 1..];
      assert forall i :: 0 <= i < |rest| ==> rest[i] == s[|raw| + 1 + i];
      ReturnsEndLinesIsSettled(rest);
      var line := if |raw| > 0 && raw[|raw| - 1] == '\r' then raw[..|raw| - 1] else raw;
      assert Lines(s) == [line] + Lines(rest);
      assert OneLine(line);
    }
  }

  // ---------------------------------------------------------------- lines of an INI text

  datatype Setting = Setting(key: string, value: string)

  function Format(kv: Setting): string {
    kv.key + " = " + kv.value
  }

  predicate IsHeader(line: string) {
    var t := Trim(line);
    t != "" && t[0] == '[' && t[|t| - 1] == ']'
  }

  predicate IsComment(line: string) {
    var t := TrimStart(line);
    t != "" && (t[0] == ';' || t[0] == '#')
  }

  function KeyOf(line: string): string {
    Trim(Before(TrimStart(line), '='))
  }

  function FindHeader(lines: seq<string>, header: string): (r: Option<nat>)
    ensures r.Some? ==> r.value < |lines| && Trim(lines[r.value]) == header
    ensures forall i :: 0 <= i < (if r.Some? then r.value else |lines|) ==> Trim(lines[i]) != header
  {
    if lines == [] then None
    else if Trim(lines[0]) == header then Some(0)
    else
      var r := FindHeader(lines[1..], header);
      if r.Some? then Some(r.value + 1) else None
  }

  /** Where the next section begins, at or after `from`. */
  function SectionEnd(lines: seq<string>, from: nat): (r: nat)
    requires from <= |lines|
    ensures from <= r <= |lines|
    ensures forall i :: from <= i < r ==> !IsHeader(lines[i])
    ensures r < |lines| ==> IsHeader(lines[r])
    decreases |lines| - from
  {
    if from == |lines| || IsHeader(lines[from]) then from else SectionEnd(lines, from + 1)
  }

  function FindKey(kv: seq<Setting>, key: string): (r: Option<nat>)
    ensures r.Some? ==> r.value < |kv| && kv[r.value].key == key
    ensures r.None? ==> forall i :: 0 <= i < |kv| ==> kv[i].key != key
  {
    if kv == [] then None
    else if kv[0].key == key then Some(0)
    else
      var r := FindKey(kv[1..], key);
      if r.Some? then Some(r.value + 1) else None
  }

  /** Which setting a line takes, if any. */
  function Taken(line: string, kv: seq<Setting>): (r: Option<nat>)
    ensures r.Some? ==> r.value < |kv|
  {
    if IsComment(line) || KeyOf(line) == "" then None else FindKey(kv, KeyOf(line))
  }

  function Drop(kv: seq<Setting>, at: nat): seq<Setting>
    requires at < |kv|
  {
    kv[..at] + kv[at + 1..]
  }

  /** The section's lines after the rewrite, and the settings that found no line. */
  function Rewrite(block: seq<string>, kv: seq<Setting>): (r: (seq<string>, seq<Setting>))
    ensures |r.0| == |block|
    ensures forall s :: s in r.1 ==> s in kv
  {
    if block == [] then ([], kv)
    else
      var at := Taken(block[0], kv);
      if at.Some? then
        var rest := Rewrite(block[1..], Drop(kv, at.value));
        ([Format(kv[at.value])] + rest.0, rest.1)
      else
        var rest := Rewrite(block[1..], kv);
        ([block[0]] + rest.0, rest.1)
  }

  function Formatted(kv: seq<Setting>): (r: seq<string>)
    ensures |r| == |kv| && forall i :: 0 <= i < |kv| ==> r[i] == Format(kv[i])
  {
    if kv == [] then [] else [Format(kv[0])] + Formatted(kv[1..])
  }

  /** The section's new lines. */
  function NewBlock(block: seq<string>, kv: seq<Setting>): seq<string> {
    Rewrite(block, kv).0 + Formatted(Rewrite(block, kv).1)
  }

  /** A text cut at its first `[section]`: up to and including the header, the section, the rest. */
  datatype Parts = Parts(head: seq<string>, block: seq<string>, tail: seq<string>)

  function Split(lines: seq<string>, section: string): Option<Parts> {
    var start := FindHeader(lines, "[" + section + "]");
    if start.None? then None
    else
      var end := SectionEnd(lines, start.value + 1);
      Some(Parts(lines[..start.value + 1], lines[start.value + 1..end], lines[end..]))
  }

  function Rejoin(p: Parts): seq<string> {
    p.head + p.block + p.tail
  }

  function Upserted(p: Parts, kv: seq<Setting>): Parts {
    p.(block := NewBlock(p.block, kv))
  }

  function Upsert(content: string, section: string, kv: seq<Setting>): Option<string> {
    var p := Split(Lines(content), section);
    if p.None? || p.value.head == [] then None else Some(JoinLines(Rejoin(Upserted(p.value, kv))))
  }

  method FindEnd(lines: seq<string>, from: nat) returns (end: nat)
    requires from <= |lines|
    ensures end == SectionEnd(lines, from)
  {
    end := |lines|;
    var i := from;
    while i < |lines|
      invariant from <= i <= |lines| == end
      invariant SectionEnd(lines, from) == SectionEnd(lines, i)
    {
      if IsHeader(lines[i]) {
        return i;
      }
      i := i + 1;
    }
  }

  method RewriteBlock(block: seq<string>, kv: seq<Setting>) returns (out: seq<string>, remaining: seq<Setting>)
    ensures (out, remaining) == Rewrite(block, kv)
  {
    out, remaining := [], kv;
    assert block[0..] == block && [] + Rewrite(block, kv).0 == Rewrite(block, kv).0;
    for n := 0 to |block|
      invariant Rewrite(block, kv) == (out + Rewrite(block[n..], remaining).0, Rewrite(block[n..], remaining).1)
    {
      var line := block[n];
      assert block[n..][0] == line && block[n..][1..] == block[n + 1..];
      var at := Taken(line, remaining);
      ghost var todo := Rewrite(block[n..], remaining).0;
      if at.Some? {
        var s := remaining[at.value];
        remaining := Drop(remaining, at.value);
        assert out + todo == out + [Format(s)] + todo[1..];
        out := out + [Format(s)];
      } else {
        assert out + todo == out + [line] + todo[1..];
        out := out + [line];
      }
    }
    assert out + [] == out;
  }

  method FormatAll(kv: seq<Setting>) returns (out: seq<string>)
    ensures out == Formatted(kv)
  {
    out := [];
    for n := 0 to |kv|
      invariant |out| == n && forall i :: 0 <= i < n ==> out[i] == Format(kv[i])
    {
      out := out + [Format(kv[n])];
    }
  }

  method RebuildText(p: Parts, kv: seq<Setting>) returns (r: Option<string>)
    requires p.head != []
    ensures r == Some(JoinLines(Rejoin(Upserted(p, kv))))
  {
    var block, remaining := RewriteBlock(p.block, kv);
    var appended := FormatAll(remaining);
    r := Some(JoinLines(p.head + (block + appended) + p.tail));
  }

  method UpsertIniSection(content: string, section: string, kv: seq<Setting>) returns (r: Option<string>)
    ensures r == Upsert(content, section, kv)
  {
    var lines := Lines(content);
    var found := FindHeader(lines, "[" + section + "]");
    if found.None? {
      return None;
    }
    var start := found.value;
    var end := FindEnd(lines, start + 1);
    var p := Parts(lines[..start + 1], lines[start + 1..end], lines[end..]);
    assert Split(lines, section) == Some(p);
    r := RebuildText(p, kv);
  }

  // ---------------------------------------------------------------- what a line is

  /** A header is a name in square brackets, with whitespace around it. */
  lemma HeaderForm(line: string)
    ensures IsHeader(line) <==> exists a, name, b :: IsHeaderOf(line, a, name, b)
  {
    if IsHeader(line) {
      var t := Trim(line);
      var a, b := TrimCuts(line);
      var name := t[1..|t| - 1];
      assert t == "[" + name + "]";
      assert IsHeaderOf(line, a, name, b);
    }
    if a, name, b :| IsHeaderOf(line, a, name, b) {
      TrimOf(a, "[" + name + "]", b);
    }
  }

  predicate IsHeaderOf(line: string, a: string, name: string, b: string) {
    AllSpace(a) && AllSpace(b) && line == a + ("[" + name + "]") + b
  }

  /** A comment is a line whose first character other than whitespace is `;` or `#`. */
  lemma CommentForm(line: string)
    ensures IsComment(line) <==> exists k: nat :: IsCommentFrom(line, k)
  {
    var a := TrimStartCuts(line);
    TrimStartIsTrimmed(line);
    if IsComment(line) {
      assert IsCommentFrom(line, |a|);
    }
    if k: nat :| IsCommentFrom(line, k) {
      assert line == line[..k] + line[k..];
      TrimStartDrops(line[..k], line[k..]);
    }
  }

  predicate IsCommentFrom(line: string, k: nat) {
    k < |line| && AllSpace(line[..k]) && (line[k] == ';' || line[k] == '#')
  }

  /** The key of a line with an `=` is what stands before the first one, without the whitespace around it. */
  lemma KeyForm(a: string, key: string, b: string, rest: string)
    requires AllSpace(a) && AllSpace(b) && IsTrimmed(key) && |key| > 0 && '=' !in key
    ensures KeyOf(a + key + b + "=" + rest) == key
  {
    var keyed := key + b;
    KeyedLine(a, key, b, rest);
    TrimStartDrops(a, keyed + ("=" + rest));
    StartsTrimmed(key, b + ("=" + rest));
    SpaceHasNoEquals(b);
    BeforeFirst(keyed, "=" + rest, '=');
    TrimOf("", key, b);
  }

  /** Without an `=` the whole line is the key. */
  lemma KeyOfBareLine(line: string)
    requires '=' !in line
    ensures KeyOf(line) == Trim(line)
  {
    var a := TrimStartCuts(line);
    BeforeAbsent(TrimStart(line), '=');
    var t := TrimStart(line);
    TrimStartIsTrimmed(line);
    assert TrimStart(t) == t;
  }

  lemma KeyedLine(a: string, key: string, b: string, rest: string)
    ensures a + key + b + "=" + rest == a + (key + b + ("=" + rest))
    ensures key + b + ("=" + rest) == key + (b + ("=" + rest))
    ensures "" + key + b == key + b
  {
  }

  lemma StartsTrimmed(key: string, rest: string)
    requires |key| > 0 && !IsSpace(key[0])
    ensures TrimStart(key + rest) == key + rest
  {
  }

  lemma SpaceHasNoEquals(b: string)
    requires AllSpace(b)
    ensures '=' !in b
  {
  }

  /** The value of a line: what stands after its first `=`, trimmed. */
  function ValueOf(line: string): string {
    var key := Before(line, '=');
    if |key| == |line| then "" else Trim(line[|key| + 1..])
  }

  /** Whatever whitespace stands around them. */
  lemma ValueForm(key: string, value: string)
    requires '=' !in key
    ensures ValueOf(key + "=" + value) == Trim(value)
  {
    var line := key + ("=" + value);
    BeforeFirst(key, "=" + value, '=');
    assert key + "=" + value == line && line[|key| + 1..] == value;
  }

  lemma TrimIgnoresSpace(s: string)
    ensures Trim(" " + s) == Trim(s)
  {
    assert AllSpace(" ");
    TrimStartDrops(" ", s);
  }

  /** The written line holds the given value. */
  lemma FormatHolds(kv: Setting)
    requires PlainKey(kv.key)
    ensures ValueOf(Format(kv)) == Trim(kv.value)
  {
    ValueForm(kv.key + " ", " " + kv.value);
    assert kv.key + " " + "=" + (" " + kv.value) == Format(kv);
    TrimIgnoresSpace(kv.value);
  }

  lemma {:induction false} LinesOfWindowsText(line: string, rest: string)
    requires '\n' !in line
    ensures Lines(line + "\r\n" + rest) == [line] + Lines(rest)
  {
    var raw := line + "\r";
    var s := raw + ("\n" + rest);
    assert line + "\r\n" + rest == s;
    BeforeFirst(raw, "\n" + rest, '\n');
    assert s[|raw| + 1..] == rest && raw[..|raw| - 1] == line;
  }

  /** A last line needs no newline, and an empty text has no line. */
  lemma LastLineIsALine(s: string)
    requires '\n' !in s
    ensures Lines(s) == if |s| == 0 then [] else [s]
  {
    BeforeAbsent(s, '\n');
  }

  // ---------------------------------------------------------------- what a written line reads as

  /** A key some line can have: trimmed, not empty, no `=`, and not the beginning of a comment. */
  predicate PlainKey(k: string) {
    && |k| > 0 && '=' !in k
    && !IsSpace(k[0]) && !IsSpace(k[|k| - 1])
    && k[0] != ';' && k[0] != '#'
  }

  ghost predicate PlainKeys(kv: seq<Setting>) {
    forall i :: 0 <= i < |kv| ==> PlainKey(kv[i].key)
  }

  /** Each setting is written as one line. */
  ghost predicate AreLines(kv: seq<Setting>) {
    forall i :: 0 <= i < |kv| ==> OneLine(Format(kv[i]))
  }

  /** No setting is written as what would be the header of a section. */
  ghost predicate NotHeaders(kv: seq<Setting>) {
    forall i :: 0 <= i < |kv| ==> !IsHeader(Format(kv[i]))
  }

  ghost predicate DistinctKeys(kv: seq<Setting>) {
    forall i, j :: 0 <= i < j < |kv| ==> kv[i].key != kv[j].key
  }

  /** This line sets this key. */
  predicate Sets(line: string, key: string) {
    !IsComment(line) && KeyOf(line) == key
  }

  /** A plain key is read back from its own line. */
  lemma FormatReads(kv: Setting)
    requires PlainKey(kv.key)
    ensures Sets(Format(kv), kv.key)
  {
    var k, line := kv.key, Format(kv);
    assert line[0] == k[0];
    assert TrimStart(line) == line;
    assert line == (k + " ") + ("= " + kv.value);
    BeforeFirst(k + " ", "= " + kv.value, '=');
    assert TrimStart(k + " ") == k + " ";
    assert (k + " ")[..|k|] == k;
    assert TrimEnd(k) == k;
  }

  lemma {:induction false} TrimEndIsTrimmed(s: string)
    ensures |TrimEnd(s)| > 0 ==> !IsSpace(TrimEnd(s)[|TrimEnd(s)| - 1])
    decreases |s|
  {
    if |s| > 0 && IsSpace(s[|s| - 1]) {
      TrimEndIsTrimmed(s[..|s| - 1]);
    }
  }

  /** No line sets any other key. */
  lemma OnlyPlainKeysAreRead(line: string)
    requires !IsComment(line) && KeyOf(line) != ""
    ensures PlainKey(KeyOf(line))
  {
    var t := TrimStart(line);
    var b := Before(t, '=');
    TrimStartIsTrimmed(line);
    BeforeIsPrefix(t, '=');
    if |b| > 0 {
      assert b[0] == t[0];
      assert TrimStart(b) == b;
      TrimEndKeepsHead(b);
      TrimEndIsPrefix(b);
      TrimEndIsTrimmed(b);
    }
  }

  /** So a key that is not plain takes no line, whatever the section. */
  lemma {:induction false} OthersAreNeverTaken(block: seq<string>, kv: seq<Setting>, s: Setting)
    requires s in kv && !PlainKey(s.key)
    ensures s in Rewrite(block, kv).1
  {
    if block != [] {
      var at := Taken(block[0], kv);
      if at.Some? {
        OnlyPlainKeysAreRead(block[0]);
        StaysInDrop(kv, at.value, s);
        OthersAreNeverTaken(block[1..], Drop(kv, at.value), s);
      } else {
        OthersAreNeverTaken(block[1..], kv, s);
      }
    }
  }

  lemma StaysInDrop(kv: seq<Setting>, at: nat, s: Setting)
    requires at < |kv| && s in kv && s != kv[at]
    ensures s in Drop(kv, at)
  {
    var i :| 0 <= i < |kv| && kv[i] == s;
    assert Drop(kv, at)[if i < at then i else i - 1] == s;
  }

  lemma InDrop(kv: seq<Setting>, at: nat, s: Setting)
    requires at < |kv| && s in Drop(kv, at)
    ensures s in kv
  {
    var i :| 0 <= i < |Drop(kv, at)| && Drop(kv, at)[i] == s;
    assert kv[if i < at then i else i + 1] == s;
  }

  lemma DropKeeps(kv: seq<Setting>, at: nat)
    requires at < |kv|
    ensures PlainKeys(kv) ==> PlainKeys(Drop(kv, at))
    ensures AreLines(kv) ==> AreLines(Drop(kv, at))
    ensures NotHeaders(kv) ==> NotHeaders(Drop(kv, at))
    ensures DistinctKeys(kv) ==> DistinctKeys(Drop(kv, at))
  {
    var d := Drop(kv, at);
    assert forall i :: 0 <= i < |d| ==> d[i] == kv[if i < at then i else i + 1];
  }

  // ---------------------------------------------------------------- reading a section

  /** The first line that sets `key`. */
  function Lookup(block: seq<string>, key: string): Option<string> {
    if block == [] then None
    else if Sets(block[0], key) then Some(block[0])
    else Lookup(block[1..], key)
  }

  /** The line of the first given setting of `key`, or what there was. */
  function Given(kv: seq<Setting>, key: string, otherwise: Option<string>): Option<string> {
    var at := FindKey(kv, key);
    if at.Some? then Some(Format(kv[at.value])) else otherwise
  }

  lemma {:induction false} FirstIsFound(kv: seq<Setting>, at: nat)
    requires at < |kv| && forall i :: 0 <= i < at ==> kv[i].key != kv[at].key
    ensures FindKey(kv, kv[at].key) == Some(at)
  {
    if at > 0 {
      FirstIsFound(kv[1..], at - 1);
    }
  }

  lemma DropOfRest(kv: seq<Setting>, at: nat)
    requires 0 < at < |kv|
    ensures Drop(kv, at) != [] && Drop(kv, at)[0] == kv[0] && Drop(kv, at)[1..] == Drop(kv[1..], at - 1)
  {
    var x, y := Drop(kv, at)[1..], Drop(kv[1..], at - 1);
    forall i | 0 <= i < |x|
      ensures x[i] == y[i]
    {
      assert x[i] == Drop(kv, at)[i + 1];
      assert i < at - 1 ==> x[i] == kv[i + 1] && y[i] == kv[1..][i];
      assert i >= at - 1 ==> x[i] == kv[i + 2] && y[i] == kv[1..][i + 1];
    }
  }

  /** Taking out a setting that was found leaves what is found for any other key. */
  lemma {:induction false} DropFindsOthers(kv: seq<Setting>, at: nat, key: string, otherwise: Option<string>)
    requires at < |kv| && kv[at].key != key
    ensures Given(Drop(kv, at), key, otherwise) == Given(kv, key, otherwise)
  {
    if at == 0 {
      assert Drop(kv, 0) == kv[1..];
    } else {
      DropOfRest(kv, at);
      DropFindsOthers(kv[1..], at - 1, key, otherwise);
    }
  }

  lemma {:induction false} FormattedReads(kv: seq<Setting>, key: string)
    requires PlainKeys(kv)
    ensures Lookup(Formatted(kv), key) == Given(kv, key, None)
  {
    if kv != [] {
      FormatReads(kv[0]);
      assert Formatted(kv)[1..] == Formatted(kv[1..]);
      FormattedReads(kv[1..], key);
    }
  }

  lemma NewBlockFirst(block: seq<string>, kv: seq<Setting>)
    requires block != []
    ensures
      var at := Taken(block[0], kv);
      && NewBlock(block, kv) != []
      && NewBlock(block, kv)[0] == (if at.Some? then Format(kv[at.value]) else block[0])
      && NewBlock(block, kv)[1..] == NewBlock(block[1..], AfterFirst(block, kv))
  {
    var at := Taken(block[0], kv);
    var rest := Rewrite(block[1..], AfterFirst(block, kv));
    var first := if at.Some? then Format(kv[at.value]) else block[0];
    assert Rewrite(block, kv) == ([first] + rest.0, rest.1);
    FirstOfThree(first, rest.0, Formatted(rest.1));
  }

  lemma FirstOfThree(first: string, a: seq<string>, b: seq<string>)
    ensures ([first] + a + b)[0] == first && ([first] + a + b)[1..] == a + b
  {
  }

  /** The settings left after the first line. */
  function AfterFirst(block: seq<string>, kv: seq<Setting>): seq<Setting>
    requires block != []
  {
    var at := Taken(block[0], kv);
    if at.Some? then Drop(kv, at.value) else kv
  }

  /** The lines after the first are the rest rewritten with what is left. */
  lemma NewBlockRest(block: seq<string>, kv: seq<Setting>, n: nat)
    requires block != [] && 0 < n < |NewBlock(block, kv)|
    ensures n - 1 < |NewBlock(block[1..], AfterFirst(block, kv))|
    ensures NewBlock(block, kv)[n] == NewBlock(block[1..], AfterFirst(block, kv))[n - 1]
  {
    NewBlockFirst(block, kv);
    RestAt(NewBlock(block, kv), NewBlock(block[1..], AfterFirst(block, kv)), n - 1);
  }

  lemma RestAt(b: seq<string>, rest: seq<string>, m: nat)
    requires |b| > 0 && b[1..] == rest
    ensures |b| == |rest| + 1 && (m < |rest| ==> b[m + 1] == rest[m])
  {
  }

  lemma EmptyBlock(kv: seq<Setting>)
    ensures NewBlock([], kv) == Formatted(kv)
  {
  }

  /** After the rewrite a given key reads as its first given setting, and every other key as before. */
  lemma {:induction false} NewBlockReads(block: seq<string>, kv: seq<Setting>, key: string)
    requires PlainKeys(kv)
    ensures Lookup(NewBlock(block, kv), key) == Given(kv, key, Lookup(block, key))
  {
    if block == [] {
      EmptyBlock(kv);
      FormattedReads(kv, key);
    } else {
      NewBlockFirst(block, kv);
      var at := Taken(block[0], kv);
      if at.Some? {
        FormatReads(kv[at.value]);
        DropKeeps(kv, at.value);
        NewBlockReads(block[1..], Drop(kv, at.value), key);
        if kv[at.value].key != key {
          DropFindsOthers(kv, at.value, key, Lookup(block[1..], key));
        }
      } else {
        NewBlockReads(block[1..], kv, key);
        FreeLineStays(block[0], kv, key);
      }
    }
  }

  /** What a section gives for a key: the value of the first line that sets it. */
  function Reading(block: seq<string>, key: string): Option<string> {
    var line := Lookup(block, key);
    if line.Some? then Some(ValueOf(line.value)) else None
  }

  /** `i` is the first setting of its key. */
  predicate IsFirst(kv: seq<Setting>, i: nat) {
    i < |kv| && forall j :: 0 <= j < i ==> kv[j].key != kv[i].key
  }

  /** After the rewrite the first given setting of a key gives its value, and every other key what it gave. */
  lemma ValuesAreSet(block: seq<string>, kv: seq<Setting>)
    requires PlainKeys(kv)
    ensures forall i: nat :: IsFirst(kv, i) ==> Reading(NewBlock(block, kv), kv[i].key) == Some(Trim(kv[i].value))
    ensures forall key :: (forall i :: 0 <= i < |kv| ==> kv[i].key != key) ==>
      Reading(NewBlock(block, kv), key) == Reading(block, key)
  {
    forall i: nat | IsFirst(kv, i)
      ensures Reading(NewBlock(block, kv), kv[i].key) == Some(Trim(kv[i].value))
    {
      NewBlockReads(block, kv, kv[i].key);
      FirstIsFound(kv, i);
      FormatHolds(kv[i]);
    }
    forall key | forall i :: 0 <= i < |kv| ==> kv[i].key != key
      ensures Reading(NewBlock(block, kv), key) == Reading(block, key)
    {
      NewBlockReads(block, kv, key);
    }
  }

  /** A line that no setting takes sets no given key. */
  lemma FreeLineStays(line: string, kv: seq<Setting>, key: string)
    requires PlainKeys(kv) && Taken(line, kv).None?
    ensures Sets(line, key) ==> FindKey(kv, key).None?
  {
    var at := FindKey(kv, key);
    if at.Some? {
      assert PlainKey(kv[at.value].key);
    }
  }

  lemma {:induction false} OthersAreNeverRead(block: seq<string>, key: string)
    requires key != "" && !PlainKey(key)
    ensures Lookup(block, key).None?
  {
    if block != [] {
      if Sets(block[0], key) {
        OnlyPlainKeysAreRead(block[0]);
      }
      OthersAreNeverRead(block[1..], key);
    }
  }

  /** Line `i` is the first of the section that sets its key. */
  ghost predicate FirstOfKey(block: seq<string>, i: nat)
    requires i < |block|
  {
    && !IsComment(block[i]) && KeyOf(block[i]) != ""
    && forall j :: 0 <= j < i && KeyOf(block[j]) == KeyOf(block[i]) ==> IsComment(block[j])
  }

  lemma DropIsOthers(kv: seq<Setting>, at: nat, s: Setting)
    requires at < |kv| && DistinctKeys(kv)
    ensures s in Drop(kv, at) <==> s in kv && s.key != kv[at].key
  {
    if s in kv && s.key != kv[at].key {
      StaysInDrop(kv, at, s);
    }
    if s in Drop(kv, at) {
      var i :| 0 <= i < |kv| - 1 && Drop(kv, at)[i] == s;
      var k := if i < at then i else i + 1;
      assert kv[k] == s;
    }
  }

  lemma DropKeepsOthers(kv: seq<Setting>, at: nat)
    requires at < |kv| && DistinctKeys(kv)
    ensures DistinctKeys(Drop(kv, at))
    ensures forall s :: s in Drop(kv, at) <==> s in kv && s.key != kv[at].key
  {
    DropKeeps(kv, at);
    forall s
      ensures s in Drop(kv, at) <==> s in kv && s.key != kv[at].key
    {
      DropIsOthers(kv, at, s);
    }
  }

  lemma TakenIsOnly(line: string, kv: seq<Setting>)
    requires DistinctKeys(kv) && !IsComment(line) && KeyOf(line) != ""
    ensures forall s :: s in kv && s.key == KeyOf(line) ==> Taken(line, kv).Some? && kv[Taken(line, kv).value] == s
  {
  }

  lemma FirstOfTail(block: seq<string>, i: nat)
    requires 0 < i < |block|
    ensures FirstOfKey(block, i) <==> FirstOfKey(block[1..], i - 1) && !Sets(block[0], KeyOf(block[i]))
  {
    var rest := block[1..];
    assert forall j :: 1 <= j < |block| ==> block[j] == rest[j - 1];
    if FirstOfKey(rest, i - 1) && !Sets(block[0], KeyOf(block[i])) {
      forall j | 0 <= j < i && KeyOf(block[j]) == KeyOf(block[i])
        ensures IsComment(block[j])
      {
        assert j > 0 ==> IsComment(rest[j - 1]);
      }
    }
  }

  /** The setting whose line this is now, or the line as it was. */
  ghost predicate Becomes(after: string, before: string, first: bool, kv: seq<Setting>) {
    && (first ==> forall s :: s in kv && s.key == KeyOf(before) ==> after == s.key + " = " + s.value)
    && (!first || (forall s :: s in kv ==> s.key != KeyOf(before)) ==> after == before)
  }

  /** A line of the rest becomes the same with the settings that are left as it does with all. */
  lemma BecomesTheSame(block: seq<string>, kv: seq<Setting>, i: nat, line: string)
    requires DistinctKeys(kv) && 0 < i < |block|
    requires Becomes(line, block[i], FirstOfKey(block[1..], i - 1), AfterFirst(block, kv))
    ensures Becomes(line, block[i], FirstOfKey(block, i), kv)
  {
    FirstOfTail(block, i);
    var at := Taken(block[0], kv);
    if at.Some? {
      DropKeepsOthers(kv, at.value);
      assert KeyOf(block[0]) == kv[at.value].key;
    } else if Sets(block[0], KeyOf(block[i])) && KeyOf(block[i]) != "" {
      TakenIsOnly(block[0], kv);
    }
  }

  /** What becomes of line `i`: a given setting if it is the first line of that key, and itself if not. */
  lemma {:induction false} LineByLine(block: seq<string>, kv: seq<Setting>, i: nat)
    requires DistinctKeys(kv) && i < |block|
    ensures |NewBlock(block, kv)| >= |block|
    ensures Becomes(NewBlock(block, kv)[i], block[i], FirstOfKey(block, i), kv)
  {
    NewBlockGrows(block, kv);
    if i == 0 {
      LineZero(block, kv);
    } else {
      assert block[i] == block[1..][i - 1];
      AfterFirstIsDistinct(block, kv);
      LineByLine(block[1..], AfterFirst(block, kv), i - 1);
      NewBlockRest(block, kv, i);
      BecomesTheSame(block, kv, i, NewBlock(block, kv)[i]);
    }
  }

  lemma AfterFirstIsDistinct(block: seq<string>, kv: seq<Setting>)
    requires DistinctKeys(kv) && block != []
    ensures DistinctKeys(AfterFirst(block, kv))
  {
    var at := Taken(block[0], kv);
    if at.Some? {
      DropKeeps(kv, at.value);
    }
  }

  lemma LineZero(block: seq<string>, kv: seq<Setting>)
    requires DistinctKeys(kv) && block != []
    ensures NewBlock(block, kv) != [] && Becomes(NewBlock(block, kv)[0], block[0], FirstOfKey(block, 0), kv)
  {
    NewBlockFirst(block, kv);
    var at := Taken(block[0], kv);
    if FirstOfKey(block, 0) {
      TakenIsOnly(block[0], kv);
    }
    assert at.Some? ==> kv[at.value] in kv;
  }

  // ---------------------------------------------------------------- what is appended

  predicate HasLine(block: seq<string>, key: string) {
    key != "" && exists i :: 0 <= i < |block| && Sets(block[i], key)
  }

  /** The settings whose key no line of the section sets, in order. */
  function Missing(block: seq<string>, kv: seq<Setting>): seq<Setting> {
    if kv == [] then []
    else (if HasLine(block, kv[0].key) then [] else [kv[0]]) + Missing(block, kv[1..])
  }

  lemma HasLineSplits(block: seq<string>, key: string)
    requires block != []
    ensures HasLine(block, key) <==> (key != "" && Sets(block[0], key)) || HasLine(block[1..], key)
  {
    assert forall i :: 1 <= i < |block| ==> block[i] == block[1..][i - 1];
    if i :| 0 <= i < |block[1..]| && Sets(block[1..][i], key) {
      assert Sets(block[i + 1], key);
    }
  }

  lemma {:induction false} MissingRest(block: seq<string>, kv: seq<Setting>)
    requires block != [] && forall i :: 0 <= i < |kv| ==> kv[i].key == "" || !Sets(block[0], kv[i].key)
    ensures Missing(block, kv) == Missing(block[1..], kv)
  {
    if kv != [] {
      HasLineSplits(block, kv[0].key);
      MissingRest(block, kv[1..]);
    }
  }

  lemma {:induction false} MissingDrop(block: seq<string>, kv: seq<Setting>, at: nat)
    requires block != [] && at < |kv| && DistinctKeys(kv) && Sets(block[0], kv[at].key) && kv[at].key != ""
    ensures Missing(block, kv) == Missing(block[1..], Drop(kv, at))
  {
    HasLineSplits(block, kv[0].key);
    if at == 0 {
      assert Drop(kv, 0) == kv[1..];
      MissingRest(block, kv[1..]);
    } else {
      DropOfRest(kv, at);
      MissingDrop(block, kv[1..], at - 1);
      assert kv[0].key != kv[at].key;
    }
  }

  lemma {:induction false} NothingIsMissing(kv: seq<Setting>)
    ensures Missing([], kv) == kv
  {
    if kv != [] {
      NothingIsMissing(kv[1..]);
    }
  }

  /** With different keys: what is left over for appending is what has no line, in the order given. */
  lemma {:induction false} LeftIsMissing(block: seq<string>, kv: seq<Setting>)
    requires DistinctKeys(kv)
    ensures Rewrite(block, kv).1 == Missing(block, kv)
  {
    if block == [] {
      NothingIsMissing(kv);
    } else {
      var at := Taken(block[0], kv);
      AfterFirstIsDistinct(block, kv);
      LeftIsMissing(block[1..], AfterFirst(block, kv));
      if at.Some? {
        MissingDrop(block, kv, at.value);
      } else {
        MissingRest(block, kv);
      }
    }
  }

  /** The new section is as long as the old one and the settings without a line, which are its end. */
  lemma AppendedInOrder(block: seq<string>, kv: seq<Setting>, i: nat)
    requires DistinctKeys(kv) && i < |Missing(block, kv)|
    ensures |NewBlock(block, kv)| == |block| + |Missing(block, kv)|
    ensures NewBlock(block, kv)[|block| + i] == Missing(block, kv)[i].key + " = " + Missing(block, kv)[i].value
  {
    LeftIsMissing(block, kv);
    NewBlockGrows(block, kv);
  }

  // ---------------------------------------------------------------- the section, once more

  /** A setting that has its line takes it again. */
  lemma TakesItsOwn(kv: seq<Setting>, at: nat)
    requires PlainKeys(kv) && at < |kv| && FindKey(kv, kv[at].key) == Some(at)
    ensures Taken(Format(kv[at]), kv) == Some(at)
  {
    FormatReads(kv[at]);
  }

  lemma {:induction false} FormattedIsFixed(kv: seq<Setting>, n: nat)
    requires PlainKeys(kv) && n <= |kv|
    ensures Rewrite(Formatted(kv)[..n], kv) == (Formatted(kv)[..n], kv[n..])
  {
    if n > 0 {
      var block := Formatted(kv)[..n];
      FirstIsFound(kv, 0);
      TakesItsOwn(kv, 0);
      assert Drop(kv, 0) == kv[1..];
      assert block[1..] == Formatted(kv[1..])[..n - 1];
      FormattedIsFixed(kv[1..], n - 1);
      assert block == [Format(kv[0])] + block[1..];
      assert kv[1..][n - 1..] == kv[n..];
    }
  }

  /** The second pass does with the first new line what the first pass did. */
  lemma FirstLineAgain(block: seq<string>, kv: seq<Setting>, lines: seq<string>)
    requires PlainKeys(kv) && block != [] && lines != [] && lines[0] == NewBlock(block, kv)[0]
    ensures PlainKeys(AfterFirst(block, kv))
    ensures
      var rest := Rewrite(lines[1..], AfterFirst(block, kv));
      Rewrite(lines, kv) == ([lines[0]] + rest.0, rest.1)
  {
    NewBlockFirst(block, kv);
    var at := Taken(block[0], kv);
    if at.Some? {
      FirstFound(kv, KeyOf(block[0]));
      TakesItsOwn(kv, at.value);
      DropKeeps(kv, at.value);
    }
  }

  lemma PrefixOfRest(b: seq<string>, n: nat)
    requires 0 < n <= |b|
    ensures b[..n] == [b[0]] + b[1..][..n - 1] && b[..n][1..] == b[1..][..n - 1]
    ensures n < |b| ==> b[n] == b[1..][n - 1]
  {
  }

  /** The rewritten section, or a beginning of it, is rewritten to itself. */
  lemma {:induction false} PrefixIsFixed(block: seq<string>, kv: seq<Setting>, n: nat)
    requires PlainKeys(kv) && n <= |NewBlock(block, kv)|
    ensures Rewrite(NewBlock(block, kv)[..n], kv).0 == NewBlock(block, kv)[..n]
    ensures n == |NewBlock(block, kv)| ==> Rewrite(NewBlock(block, kv)[..n], kv).1 == []
    ensures n < |NewBlock(block, kv)| && (n >= |block| || NewBlock(block, kv)[n] != block[n]) ==>
              Rewrite(NewBlock(block, kv)[..n], kv).1 != []
  {
    if block == [] {
      EmptyBlock(kv);
      FormattedIsFixed(kv, n);
    } else if n == 0 {
      NothingYet(block, kv);
    } else {
      var b := NewBlock(block, kv);
      NewBlockFirst(block, kv);
      PrefixOfRest(b, n);
      FirstLineAgain(block, kv, b[..n]);
      PrefixIsFixed(block[1..], AfterFirst(block, kv), n - 1);
      assert n < |block| ==> block[n] == block[1..][n - 1];
    }
  }

  lemma NothingYet(block: seq<string>, kv: seq<Setting>)
    requires block != []
    ensures Rewrite(NewBlock(block, kv)[..0], kv) == ([], kv)
    ensures NewBlock(block, kv) != [] && (NewBlock(block, kv)[0] != block[0] ==> kv != [])
  {
    NewBlockFirst(block, kv);
    assert NewBlock(block, kv)[..0] == [];
  }

  lemma FirstFound(kv: seq<Setting>, key: string)
    requires FindKey(kv, key).Some?
    ensures FindKey(kv, kv[FindKey(kv, key).value].key) == FindKey(kv, key)
  {
  }

  lemma NewBlockGrows(block: seq<string>, kv: seq<Setting>)
    ensures |NewBlock(block, kv)| == |block| + |Rewrite(block, kv).1|
  {
  }

  /** Rewriting a section twice is rewriting it once exactly when all keys are plain. */
  lemma BlockTwiceIsOnce(block: seq<string>, kv: seq<Setting>)
    ensures NewBlock(NewBlock(block, kv), kv) == NewBlock(block, kv) <==> PlainKeys(kv)
  {
    var b := NewBlock(block, kv);
    if PlainKeys(kv) {
      PrefixIsFixed(block, kv, |b|);
      assert b[..|b|] == b;
      assert b + Formatted([]) == b;
    } else {
      var i :| 0 <= i < |kv| && !PlainKey(kv[i].key);
      OthersAreNeverTaken(b, kv, kv[i]);
      NewBlockGrows(b, kv);
    }
  }

  lemma LeftAfterFirst(block: seq<string>, kv: seq<Setting>, s: Setting)
    requires block != [] && s in kv
    requires Taken(block[0], kv).Some? ==> kv[Taken(block[0], kv).value] != s
    ensures s in AfterFirst(block, kv)
  {
    var at := Taken(block[0], kv);
    if at.Some? {
      StaysInDrop(kv, at.value, s);
    }
  }

  /** Every setting gets its line. */
  lemma {:induction false} AllAreWritten(block: seq<string>, kv: seq<Setting>, s: Setting) returns (n: nat)
    requires s in kv
    ensures n < |NewBlock(block, kv)| && NewBlock(block, kv)[n] == Format(s)
  {
    if |block| == 0 {
      EmptyBlock(kv);
      n :| 0 <= n < |kv| && kv[n] == s;
    } else if Taken(block[0], kv).Some? && kv[Taken(block[0], kv).value] == s {
      NewBlockFirst(block, kv);
      n := 0;
    } else {
      LeftAfterFirst(block, kv, s);
      var m := AllAreWritten(block[1..], AfterFirst(block, kv), s);
      n := WrittenLater(block, kv, m);
    }
  }

  lemma WrittenLater(block: seq<string>, kv: seq<Setting>, m: nat) returns (n: nat)
    requires block != [] && m < |NewBlock(block[1..], AfterFirst(block, kv))|
    ensures n < |NewBlock(block, kv)| && NewBlock(block, kv)[n] == NewBlock(block[1..], AfterFirst(block, kv))[m]
  {
    NewBlockFirst(block, kv);
    RestAt(NewBlock(block, kv), NewBlock(block[1..], AfterFirst(block, kv)), m);
    n := m + 1;
  }

  // ---------------------------------------------------------------- the whole text

  lemma {:induction false} FindHeaderAt(lines: seq<string>, header: string, at: nat)
    requires at < |lines| && Trim(lines[at]) == header && forall i :: 0 <= i < at ==> Trim(lines[i]) != header
    ensures FindHeader(lines, header) == Some(at)
  {
    if at > 0 {
      FindHeaderAt(lines[1..], header, at - 1);
    }
  }

  lemma {:induction false} SectionEndAt(lines: seq<string>, from: nat, end: nat)
    requires from <= end <= |lines| && (forall i :: from <= i < end ==> !IsHeader(lines[i]))
    requires end < |lines| ==> IsHeader(lines[end])
    ensures SectionEnd(lines, from) == end
    decreases end - from
  {
    if from < end {
      SectionEndAt(lines, from + 1, end);
    }
  }

  /** What the cut guarantees: the first such header ends the head, and the next header starts the tail. */
  ghost predicate IsCut(p: Parts, header: string) {
    && p.head != []
    && (forall i :: 0 <= i < |p.head| ==> (Trim(p.head[i]) == header <==> i == |p.head| - 1))
    && NoHeaders(p.block)
    && (p.tail != [] ==> IsHeader(p.tail[0]))
  }

  ghost predicate NoHeaders(lines: seq<string>) {
    forall i :: 0 <= i < |lines| ==> !IsHeader(lines[i])
  }

  lemma SplitIsCut(lines: seq<string>, section: string)
    requires Split(lines, section).Some?
    ensures IsCut(Split(lines, section).value, "[" + section + "]")
    ensures Rejoin(Split(lines, section).value) == lines
  {
  }

  lemma SplitOfCut(p: Parts, section: string)
    requires IsCut(p, "[" + section + "]")
    ensures Split(Rejoin(p), section) == Some(p)
  {
    var lines, h, b := Rejoin(p), |p.head|, |p.block|;
    assert lines[..h] == p.head && lines[h..h + b] == p.block && lines[h + b..] == p.tail;
    assert forall i :: 0 <= i < h ==> lines[i] == p.head[i];
    FindHeaderAt(lines, "[" + section + "]", h - 1);
    forall i | h <= i < h + b
      ensures !IsHeader(lines[i])
    {
      assert lines[i] == p.block[i - h];
    }
    SectionEndAt(lines, h, h + b);
  }

  ghost predicate IsWritten(line: string, kv: seq<Setting>) {
    exists s :: s in kv && line == Format(s)
  }

  lemma WrittenBefore(line: string, kv: seq<Setting>, at: nat)
    requires at < |kv| && IsWritten(line, Drop(kv, at))
    ensures IsWritten(line, kv)
  {
    var s :| s in Drop(kv, at) && line == Format(s);
    InDrop(kv, at, s);
  }

  /** A rewritten section has old lines and written settings, and nothing else. */
  lemma {:induction false} NewLines(block: seq<string>, kv: seq<Setting>, n: nat)
    requires n < |NewBlock(block, kv)|
    ensures (n < |block| && NewBlock(block, kv)[n] == block[n]) || IsWritten(NewBlock(block, kv)[n], kv)
  {
    if block == [] {
      EmptyBlock(kv);
      assert kv[n] in kv;
    } else {
      var at := Taken(block[0], kv);
      if n == 0 {
        NewBlockFirst(block, kv);
        assert at.Some? ==> kv[at.value] in kv;
      } else {
        NewBlockRest(block, kv, n);
        NewLines(block[1..], AfterFirst(block, kv), n - 1);
        if at.Some? && IsWritten(NewBlock(block, kv)[n], Drop(kv, at.value)) {
          WrittenBefore(NewBlock(block, kv)[n], kv, at.value);
        }
      }
    }
  }

  lemma NewBlockIsPlain(block: seq<string>, kv: seq<Setting>)
    requires AreLines(kv) && PlainLines(block)
    ensures PlainLines(NewBlock(block, kv))
    ensures NotHeaders(kv) && NoHeaders(block) ==> NoHeaders(NewBlock(block, kv))
  {
    var b := NewBlock(block, kv);
    forall n | 0 <= n < |b|
      ensures OneLine(b[n]) && (NotHeaders(kv) && NoHeaders(block) ==> !IsHeader(b[n]))
    {
      NewLines(block, kv, n);
    }
  }

  lemma PartsArePlain(p: Parts)
    ensures PlainLines(Rejoin(p)) <==> PlainLines(p.head) && PlainLines(p.block) && PlainLines(p.tail)
  {
    var lines, h, b := Rejoin(p), |p.head|, |p.block|;
    assert forall i :: 0 <= i < h ==> lines[i] == p.head[i];
    assert forall i :: 0 <= i < b ==> lines[h + i] == p.block[i];
    assert forall i :: 0 <= i < |p.tail| ==> lines[h + b + i] == p.tail[i];
    if PlainLines(p.head) && PlainLines(p.block) && PlainLines(p.tail) {
      forall i | 0 <= i < |lines|
        ensures OneLine(lines[i])
      {
        assert lines[i] == if i < h then p.head[i] else if i < h + b then p.block[i - h] else p.tail[i - h - b];
      }
    }
  }

  /** The written text is read as the lines that were written. */
  lemma WrittenIsRead(p: Parts, kv: seq<Setting>)
    requires p.head != [] && AreLines(kv) && PlainLines(Rejoin(p))
    ensures Rejoin(Upserted(p, kv)) != []
    ensures Lines(JoinLines(Rejoin(Upserted(p, kv)))) == Rejoin(Upserted(p, kv))
  {
    PartsArePlain(p);
    NewBlockIsPlain(p.block, kv);
    PartsArePlain(Upserted(p, kv));
    LinesOfJoined(Rejoin(Upserted(p, kv)));
  }

  /** No header, no result; otherwise the section is rewritten and every line outside it is as it was. */
  lemma UpsertRewritesTheSection(content: string, section: string, kv: seq<Setting>)
    requires Settled(content) && AreLines(kv) && NotHeaders(kv)
    ensures Upsert(content, section, kv).None? <==>
      forall i :: 0 <= i < |Lines(content)| ==> Trim(Lines(content)[i]) != "[" + section + "]"
    ensures Upsert(content, section, kv).Some? ==>
      && Split(Lines(content), section).Some?
      && Split(Lines(Upsert(content, section, kv).value), section) == Some(Upserted(Split(Lines(content), section).value, kv))
  {
    var lines := Lines(content);
    if Split(lines, section).Some? {
      var p := Split(lines, section).value;
      SplitIsCut(lines, section);
      PartsArePlain(p);
      WrittenIsRead(p, kv);
      NewBlockIsPlain(p.block, kv);
      SplitOfCut(Upserted(p, kv), section);
    }
  }

  /** After an upsert every given key of the section has its value and every other key what it had. */
  lemma UpsertSetsTheKeys(content: string, section: string, kv: seq<Setting>, key: string)
    requires Settled(content) && AreLines(kv) && NotHeaders(kv) && PlainKeys(kv) && Upsert(content, section, kv).Some?
    ensures
      var before, after := Split(Lines(content), section), Split(Lines(Upsert(content, section, kv).value), section);
      && before.Some? && after.Some?
      && Lookup(after.value.block, key) == Given(kv, key, Lookup(before.value.block, key))
      && (forall i: nat :: IsFirst(kv, i) ==> Reading(after.value.block, kv[i].key) == Some(Trim(kv[i].value)))
      && ((forall i :: 0 <= i < |kv| ==> kv[i].key != key) ==>
        Reading(after.value.block, key) == Reading(before.value.block, key))
  {
    UpsertRewritesTheSection(content, section, kv);
    NewBlockReads(Split(Lines(content), section).value.block, kv, key);
    ValuesAreSet(Split(Lines(content), section).value.block, kv);
  }

  /** In every section a given key can be found afterwards exactly when it is plain. */
  lemma GivenKeyIsFoundIff(block: seq<string>, kv: seq<Setting>, i: nat)
    requires i < |kv| && kv[i].key != "" && forall k :: 0 <= k < |kv| && k != i ==> PlainKey(kv[k].key)
    ensures Lookup(NewBlock(block, kv), kv[i].key).Some? <==> PlainKey(kv[i].key)
  {
    if PlainKey(kv[i].key) {
      NewBlockReads(block, kv, kv[i].key);
    } else {
      OthersAreNeverRead(NewBlock(block, kv), kv[i].key);
    }
  }

  // ---------------------------------------------------------------- the whole text, once more

  lemma {:induction false} FirstHeaderIn(lines: seq<string>, m: nat) returns (n: nat)
    requires m < |lines| && IsHeader(lines[m])
    ensures n <= m && IsHeader(lines[n]) && NoHeaders(lines[..n])
    decreases m
  {
    if i :| 0 <= i < m && IsHeader(lines[i]) {
      n := FirstHeaderIn(lines, i);
    } else {
      n := m;
    }
  }

  /** The first header among the new lines, if a setting was written as one. */
  lemma FirstHeader(block: seq<string>, kv: seq<Setting>) returns (n: nat)
    requires NoHeaders(block) && !NotHeaders(kv)
    ensures n < |NewBlock(block, kv)| && IsHeader(NewBlock(block, kv)[n]) && NoHeaders(NewBlock(block, kv)[..n])
    ensures n >= |block| || NewBlock(block, kv)[n] != block[n]
  {
    var i :| 0 <= i < |kv| && IsHeader(Format(kv[i]));
    var m := AllAreWritten(block, kv, kv[i]);
    n := FirstHeaderIn(NewBlock(block, kv), m);
  }

  /** What comes before a line written for a setting has not used that setting up. */
  lemma SettingIsLeft(block: seq<string>, kv: seq<Setting>, n: nat)
    requires n < |NewBlock(block, kv)| && (n >= |block| || NewBlock(block, kv)[n] != block[n])
    ensures Rewrite(NewBlock(block, kv)[..n], kv).1 != []
  {
    if PlainKeys(kv) {
      PrefixIsFixed(block, kv, n);
    } else {
      var i :| 0 <= i < |kv| && !PlainKey(kv[i].key);
      OthersAreNeverTaken(NewBlock(block, kv)[..n], kv, kv[i]);
    }
  }

  lemma MoveToTail(head: seq<string>, b: seq<string>, tail: seq<string>, n: nat)
    requires n <= |b|
    ensures head + b + tail == head + b[..n] + (b[n..] + tail)
  {
    assert b == b[..n] + b[n..];
  }

  /** Then the section ends there for the second pass, which appends that setting again. */
  lemma HeaderSettingPilesUp(p: Parts, header: string, kv: seq<Setting>) returns (q: Parts)
    requires IsCut(p, header) && !NotHeaders(kv)
    ensures IsCut(q, header) && Rejoin(q) == Rejoin(Upserted(p, kv)) && |NewBlock(q.block, kv)| > |q.block|
  {
    var b := NewBlock(p.block, kv);
    var n := FirstHeader(p.block, kv);
    q := Parts(p.head, b[..n], b[n..] + p.tail);
    MoveToTail(p.head, b, p.tail, n);
    SettingIsLeft(p.block, kv, n);
    NewBlockGrows(q.block, kv);
  }

  lemma {:induction false} SameJoinedSameLines(a: seq<string>, b: seq<string>)
    requires a != [] && b != [] && PlainLines(a) && PlainLines(b)
    ensures JoinLines(a) == JoinLines(b) <==> a == b
  {
    LinesOfJoined(a);
    LinesOfJoined(b);
  }

  /** The second pass over a written text, cut as it will be found. */
  lemma SecondPass(text: string, section: string, kv: seq<Setting>, q: Parts)
    requires AreLines(kv) && IsCut(q, "[" + section + "]") && PlainLines(Rejoin(q))
    requires Lines(text) == Rejoin(q) && text == JoinLines(Rejoin(q))
    ensures Upsert(text, section, kv) == Some(text) <==> NewBlock(q.block, kv) == q.block
  {
    SplitOfCut(q, section);
    PartsArePlain(q);
    NewBlockIsPlain(q.block, kv);
    PartsArePlain(Upserted(q, kv));
    SameJoinedSameLines(Rejoin(Upserted(q, kv)), Rejoin(q));
    if NewBlock(q.block, kv) == q.block {
      assert Upserted(q, kv) == q;
    } else if Rejoin(Upserted(q, kv)) == Rejoin(q) {
      SameMiddle(q.head, NewBlock(q.block, kv), q.block, q.tail);
    }
  }

  lemma SameMiddle(a: seq<string>, b: seq<string>, c: seq<string>, d: seq<string>)
    requires a + b + d == a + c + d
    ensures b == c
  {
    assert |b| == |c|;
    assert b == (a + b + d)[|a|..|a| + |b|] && c == (a + c + d)[|a|..|a| + |c|];
  }

  /**
   * Doing it again changes nothing, to the character, exactly when every key is plain and no setting
   * is written as a header.
   */
  lemma UpsertTwiceIsOnce(content: string, section: string, kv: seq<Setting>)
    requires Settled(content) && AreLines(kv) && Upsert(content, section, kv).Some?
    ensures Upsert(Upsert(content, section, kv).value, section, kv) == Upsert(content, section, kv) <==>
            PlainKeys(kv) && NotHeaders(kv)
  {
    var text := Upsert(content, section, kv).value;
    var p := Split(Lines(content), section).value;
    SplitIsCut(Lines(content), section);
    WrittenIsRead(p, kv);
    PartsArePlain(p);
    NewBlockIsPlain(p.block, kv);
    PartsArePlain(Upserted(p, kv));
    if NotHeaders(kv) {
      SecondPass(text, section, kv, Upserted(p, kv));
      BlockTwiceIsOnce(p.block, kv);
    } else {
      var q := HeaderSettingPilesUp(p, "[" + section + "]", kv);
      SecondPass(text, section, kv, q);
    }
  }
}
