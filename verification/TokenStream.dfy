/**
 * The interrogator's view of a streamed answer (src/interrogate.rs): token events while chunks arrive,
 * and the count taken from the transcript afterwards.
 */
module TokenStream {
  import opened Prelude
  import opened Text

  const PREFIX := "data: "
  const DONE := "[DONE]"
  const RETURN_SIGN := " \U{23CE} "

  /** The content of one event's JSON, if it parses and has any; parsing is not part of this model. */
  type Content = string -> Option<string>

  // ---------------------------------------------------------------- lines as they complete

  /** The newline-terminated lines of a text, with their newlines. */
  function Complete(text: string): seq<string>
    decreases |text|
  {
    var line := Before(text, '\n');
    if |line| == |text| then [] else [line + "\n"] + Complete(text[|line| + 1..])
  }

  /** What follows the last newline. */
  function Tail(text: string): string
    decreases |text|
  {
    var line := Before(text, '\n');
    if |line| == |text| then text else Tail(text[|line| + 1..])
  }

  /** A newline is shown as a return sign between spaces. */
  function Shown(token: string): string {
    if |token| == 0 then ""
    else (if token[0] == '\n' then RETURN_SIGN else [token[0]]) + Shown(token[1..])
  }

  /** The token a line carries, as it is shown: trimmed, then cut at the prefix. */
  function TokenOf(content: Content, line: string): seq<string> {
    var t := Trim(line);
    if PREFIX <= t && content(t[|PREFIX|..]).Some? then [Shown(content(t[|PREFIX|..]).value)] else []
  }

  function Tokens(content: Content, lines: seq<string>): seq<string> {
    if lines == [] then [] else TokenOf(content, lines[0]) + Tokens(content, lines[1..])
  }

  /** The inner loop: handle and remove every complete line of the buffer. */
  method DrainLines(content: Content, pending: string) returns (buffer: string, tokens: seq<string>)
    ensures buffer == Tail(pending) && tokens == Tokens(content, Complete(pending))
  {
    buffer, tokens := pending, [];
    while '\n' in buffer
      invariant Tail(buffer) == Tail(pending)
      invariant tokens + Tokens(content, Complete(buffer)) == Tokens(content, Complete(pending))
      decreases |buffer|
    {
      var line := Before(buffer, '\n') + "\n";
      FirstToken(content, buffer);
      Regroup(tokens, TokenOf(content, line), Tokens(content, Complete(buffer[|line|..])));
      tokens := tokens + TokenOf(content, line);
      buffer := buffer[|line|..];
    }
    NothingComplete(content, buffer);
  }

  lemma Regroup(a: seq<string>, b: seq<string>, c: seq<string>)
    ensures a + (b + c) == a + b + c
  {
  }

  lemma FirstToken(content: Content, s: string)
    requires '\n' in s
    ensures
      var line := Before(s, '\n') + "\n";
      && |line| <= |s|
      && Tokens(content, Complete(s)) == TokenOf(content, line) + Tokens(content, Complete(s[|line|..]))
      && Tail(s) == Tail(s[|line|..])
  {
    FirstLine(s);
  }

  lemma NothingComplete(content: Content, s: string)
    requires '\n' !in s
    ensures Tokens(content, Complete(s)) == [] && Tail(s) == s
  {
    BeforeAbsent(s, '\n');
  }

  lemma FirstLine(s: string)
    requires '\n' in s
    ensures
      var line := Before(s, '\n') + "\n";
      && |line| <= |s|
      && Complete(s) == [line] + Complete(s[|line|..])
      && Complete(s)[1..] == Complete(s[|line|..])
      && Tail(s) == Tail(s[|line|..])
  {
  }

  lemma {:induction false} TokensAppend(content: Content, a: seq<string>, b: seq<string>)
    ensures Tokens(content, a + b) == Tokens(content, a) + Tokens(content, b)
  {
    if a == [] {
      assert a + b == b;
    } else {
      assert (a + b)[1..] == a[1..] + b;
      TokensAppend(content, a[1..], b);
    }
  }

  lemma {:induction false} BeforeOfLonger(a: string, b: string)
    ensures Before(a + b, '\n') == if |Before(a, '\n')| == |a| then a + Before(b, '\n') else Before(a, '\n')
  {
    if |a| == 0 {
      assert a + b == b;
    } else if a[0] != '\n' {
      assert (a + b)[1..] == a[1..] + b;
      BeforeOfLonger(a[1..], b);
    }
  }

  /** Completed lines stay; new text only continues the tail. */
  lemma {:induction false} CutAtTail(a: string, b: string)
    ensures Complete(a + b) == Complete(a) + Complete(Tail(a) + b)
    ensures Tail(a + b) == Tail(Tail(a) + b)
    decreases |a|
  {
    if '\n' in a {
      var n := |Before(a, '\n')| + 1;
      FirstLine(a);
      FirstLineOfLonger(a, b);
      CutAtTail(a[n..], b);
    } else {
      BeforeAbsent(a, '\n');
    }
  }

  lemma FirstLineOfLonger(a: string, b: string)
    requires '\n' in a
    ensures
      var line := Before(a, '\n') + "\n";
      && |line| <= |a|
      && Complete(a + b) == [line] + Complete(a[|line|..] + b)
      && Tail(a + b) == Tail(a[|line|..] + b)
  {
    var line := Before(a, '\n') + "\n";
    BeforeIsPrefix(a, '\n');
    BeforeOfLonger(a, b);
    assert (a + b)[|line|..] == a[|line|..] + b;
    FirstLine(a + b);
  }

  // ---------------------------------------------------------------- what the lines and tokens are

  /** The line is ended by a newline, its only one. */
  predicate IsLine(line: string) {
    |line| > 0 && line[|line| - 1] == '\n' && '\n' !in line[..|line| - 1]
  }

  function ConcatAll(lines: seq<string>): string {
    if lines == [] then "" else lines[0] + ConcatAll(lines[1..])
  }

  /** The text is these lines, and then a tail without a newline. */
  ghost predicate MakeUp(lines: seq<string>, tail: string, text: string) {
    && ConcatAll(lines) + tail == text
    && (forall k :: 0 <= k < |lines| ==> IsLine(lines[k]))
    && '\n' !in tail
  }

  lemma MakeUpOn(line: string, lines: seq<string>, tail: string, rest: string)
    requires IsLine(line) && MakeUp(lines, tail, rest)
    ensures MakeUp([line] + lines, tail, line + rest)
  {
    assert ([line] + lines)[1..] == lines;
    assert line + ConcatAll(lines) + tail == line + (ConcatAll(lines) + tail);
  }

  lemma CutAfter(text: string, n: nat)
    requires n < |text| && text[n] == '\n' && '\n' !in text[..n]
    ensures IsLine(text[..n] + "\n") && text == text[..n] + "\n" + text[n + 1..]
  {
    var line := text[..n] + "\n";
    assert line[..n] == text[..n];
  }

  lemma FirstIsLine(text: string)
    requires '\n' in text
    ensures
      var line := Before(text, '\n') + "\n";
      IsLine(line) && |line| <= |text| && text == line + text[|line|..]
  {
    var n := |Before(text, '\n')|;
    BeforeIsPrefix(text, '\n');
    assert Before(text, '\n') == text[..n];
    CutAfter(text, n);
  }

  /** Nothing is lost or moved: the complete lines and the tail are the text. */
  lemma {:induction false} LinesMakeTheText(text: string)
    ensures MakeUp(Complete(text), Tail(text), text)
    decreases |text|
  {
    if '\n' in text {
      var line := Before(text, '\n') + "\n";
      FirstIsLine(text);
      FirstLine(text);
      LinesMakeTheText(text[|line|..]);
      MakeUpOn(line, Complete(text[|line|..]), Tail(text), text[|line|..]);
    } else {
      BeforeAbsent(text, '\n');
      assert "" + text == text;
    }
  }

  /** The token of a line is the content of what follows its prefix, whatever whitespace is around. */
  lemma TokenForm(content: Content, a: string, d: string, b: string)
    requires AllSpace(a) && AllSpace(b) && |d| > 0 && !IsSpace(d[|d| - 1])
    ensures TokenOf(content, a + (PREFIX + d) + b) ==
      match content(d) case Some(token) => [Shown(token)] case None => []
  {
    TrimOf(a, PREFIX + d, b);
    assert (PREFIX + d)[|PREFIX|..] == d;
  }

  /** Only such lines have one. */
  lemma TokenNeedsPrefix(content: Content, line: string)
    requires TokenOf(content, line) != []
    ensures exists a, d, b :: IsEventLine(line, a, d, b) && content(d).Some?
  {
    var t := Trim(line);
    var a, b := TrimCuts(line);
    assert t == PREFIX + t[|PREFIX|..];
    assert IsEventLine(line, a, t[|PREFIX|..], b);
  }

  predicate IsEventLine(line: string, a: string, d: string, b: string) {
    AllSpace(a) && AllSpace(b) && line == a + (PREFIX + d) + b
  }

  /** What is shown is the token itself but for its newlines, each of which is one return sign. */
  lemma {:induction false} ShownReplaces(x: string, y: string)
    ensures Shown(x + "\n" + y) == Shown(x) + RETURN_SIGN + Shown(y)
    ensures '\n' !in x ==> Shown(x) == x
  {
    if |x| == 0 {
      assert x + "\n" + y == "\n" + y && ("\n" + y)[1..] == y;
      assert "" + RETURN_SIGN == RETURN_SIGN;
    } else {
      assert (x + "\n" + y)[1..] == x[1..] + "\n" + y;
      ShownReplaces(x[1..], y);
      var first := if x[0] == '\n' then RETURN_SIGN else [x[0]];
      assert first + (Shown(x[1..]) + RETURN_SIGN + Shown(y)) == first + Shown(x[1..]) + RETURN_SIGN + Shown(y);
      assert x == [x[0]] + x[1..];
    }
  }

  function Concat(chunks: seq<string>): string {
    if chunks == [] then "" else Concat(chunks[..|chunks| - 1]) + chunks[|chunks| - 1]
  }

  /** The whole loop: the token events depend on the text alone, not on how it was cut. */
  method Strike(content: Content, chunks: seq<string>) returns (events: seq<string>, transcript: string)
    ensures transcript == Concat(chunks)
    ensures events == Tokens(content, Complete(Concat(chunks)))
  {
    transcript, events := "", [];
    var buffer := "";
    for n := 0 to |chunks|
      invariant transcript == Concat(chunks[..n])
      invariant buffer == Tail(transcript) && events == Tokens(content, Complete(transcript))
    {
      var text := chunks[n];
      assert chunks[..n + 1][..n] == chunks[..n];
      CutAtTail(transcript, text);
      TokensAppend(content, Complete(transcript), Complete(buffer + text));
      transcript := transcript + text;
      buffer := buffer + text;
      var tokens: seq<string>;
      buffer, tokens := DrainLines(content, buffer);
      events := events + tokens;
    }
    assert chunks[..|chunks|] == chunks;
  }

  // ---------------------------------------------------------------- the transcript afterwards

  /** The transcript's own reading: line ends only are stripped, and `[DONE]` is skipped. */
  predicate Counts(content: Content, line: string) {
    PREFIX <= line && line[|PREFIX|..] != DONE && content(line[|PREFIX|..]).Some?
  }

  function ContentChunks(content: Content, lines: seq<string>): nat {
    if lines == [] then 0
    else ContentChunks(content, lines[..|lines| - 1]) + if Counts(content, lines[|lines| - 1]) then 1 else 0
  }

  /** The counting loop of `metrics_from_transcript`. */
  method CountContentChunks(content: Content, transcript: string) returns (n: nat)
    ensures n == ContentChunks(content, Lines(transcript))
  {
    var lines := Lines(transcript);
    n := 0;
    for k := 0 to |lines|
      invariant n == ContentChunks(content, lines[..k])
    {
      assert lines[..k + 1][..k] == lines[..k];
      var line := lines[k];
      if PREFIX <= line && line[|PREFIX|..] != DONE {
        if content(line[|PREFIX|..]).Some? {
          n := n + 1;
        }
      }
    }
    assert lines[..|lines|] == lines;
  }

  // ---------------------------------------------------------------- when the two agree

  /** JSON's own whitespace, which has no vertical tab or form feed. */
  predicate IsJsonSpace(c: char) {
    c == ' ' || c == '\t' || c == '\n' || c == '\r'
  }

  /** The whitespace at the end of a text. */
  function TrailingSpace(s: string): (r: string) {
    if |s| > 0 && IsSpace(s[|s| - 1]) then TrailingSpace(s[..|s| - 1]) + [s[|s| - 1]] else ""
  }

  predicate JsonSpaced(s: string) {
    forall k :: 0 <= k < |s| ==> IsJsonSpace(s[k])
  }

  /**
   * What JSON guarantees: its own whitespace at the end means nothing, any other there is an error, and
   * neither nothing nor `[DONE]` is an event.
   */
  ghost predicate IsJson(content: Content) {
    && (forall d :: content(d) == if JsonSpaced(TrailingSpace(d)) then content(TrimEnd(d)) else None)
    && content("").None? && content(DONE).None?
  }

  /** The stream trims a line more than the transcript does: at its start, and of more than JSON's whitespace. */
  predicate OverTrimmed(line: string) {
    (|line| > 0 && IsSpace(line[0])) || !JsonSpaced(TrailingSpace(line))
  }

  /** The stream shows a token on this line, and the transcript does not count it. */
  predicate ShownOnly(content: Content, line: string) {
    OverTrimmed(line) && TokenOf(content, line) != []
  }

  function CountShownOnly(content: Content, lines: seq<string>): nat {
    if lines == [] then 0
    else CountShownOnly(content, lines[1..]) + if ShownOnly(content, lines[0]) then 1 else 0
  }

  /** Trimming a line with a prefix that ends in a space trims what follows the prefix. */
  lemma {:induction false} TrimEndAfter(a: string, d: string)
    ensures TrimEnd(d) != "" ==> TrimEnd(a + d) == a + TrimEnd(d)
    ensures TrimEnd(d) == "" ==> TrimEnd(a + d) == TrimEnd(a)
    decreases |d|
  {
    if d == "" {
      assert a + d == a;
    } else if IsSpace(d[|d| - 1]) {
      assert (a + d)[..|a + d| - 1] == a + d[..|d| - 1];
      TrimEndAfter(a, d[..|d| - 1]);
    }
  }

  lemma {:induction false} TrailingSpaceAfter(a: string, d: string)
    ensures TrailingSpace(a + d) == (if TrimEnd(d) == "" then TrailingSpace(a) else "") + TrailingSpace(d)
    decreases |d|
  {
    if d == "" {
      assert a + d == a;
    } else if IsSpace(d[|d| - 1]) {
      assert (a + d)[..|a + d| - 1] == a + d[..|d| - 1];
      TrailingSpaceAfter(a, d[..|d| - 1]);
    }
  }

  lemma TrimmedPrefix()
    ensures |TrimEnd(PREFIX)| < |PREFIX|
  {
    assert PREFIX[5] == ' ';
    TrimEndIsPrefix(PREFIX[..5]);
  }

  /** On a line the stream does not trim too much, both readings find a token, or neither does. */
  lemma PlainLinesAgree(content: Content, line: string)
    requires IsJson(content) && !OverTrimmed(line)
    ensures TokenOf(content, line) != [] <==> Counts(content, line)
  {
    TrimEndIsPrefix(line);
    if PREFIX <= line {
      var d := line[|PREFIX|..];
      assert line == PREFIX + d;
      TrimEndAfter(PREFIX, d);
      TrailingSpaceAfter(PREFIX, d);
      TrimmedPrefix();
      if TrimEnd(d) != "" {
        assert TrailingSpace(line) == TrailingSpace(d);
        assert TrimStart(line) == line && TrimEnd(line)[|PREFIX|..] == TrimEnd(d);
        assert content(d) == content(TrimEnd(d));
        assert d == DONE ==> TrimEnd(d) == DONE;
      }
    }
  }

  /** A line that is trimmed too much is never counted. */
  lemma OverTrimmedIsNotCounted(content: Content, line: string)
    requires IsJson(content) && OverTrimmed(line)
    ensures !Counts(content, line)
  {
    if PREFIX <= line {
      var d := line[|PREFIX|..];
      assert line == PREFIX + d;
      TrailingSpaceAfter(PREFIX, d);
      PrefixSpace();
    }
  }

  lemma PrefixSpace()
    ensures TrailingSpace(PREFIX) == " "
  {
    assert PREFIX[..5] == "data:";
    assert TrailingSpace("data:") == "";
  }

  lemma ReadingsDiffer(content: Content, line: string)
    requires IsJson(content)
    ensures |TokenOf(content, line)| ==
            (if Counts(content, line) then 1 else 0) + if ShownOnly(content, line) then 1 else 0
  {
    if OverTrimmed(line) {
      OverTrimmedIsNotCounted(content, line);
    } else {
      PlainLinesAgree(content, line);
    }
  }

  lemma {:induction false} TrimStartAfter(s: string, ending: string)
    requires TrimStart(s) != ""
    ensures TrimStart(s + ending) == TrimStart(s) + ending
  {
    if IsSpace(s[0]) {
      assert (s + ending)[1..] == s[1..] + ending;
      TrimStartAfter(s[1..], ending);
    }
  }

  lemma {:induction false} BlankLine(s: string, ending: string)
    requires TrimStart(s) == "" && (ending == "\n" || ending == "\r\n")
    ensures Trim(s + ending) == ""
  {
    if s == "" {
      TrimOfNewline(ending);
      assert s + ending == ending;
    } else {
      assert (s + ending)[1..] == s[1..] + ending;
      BlankLine(s[1..], ending);
    }
  }

  /** The line's own newline is trimmed off with the rest. */
  lemma TrimmedLine(line: string, ending: string)
    requires ending == "\n" || ending == "\r\n"
    ensures Trim(line + ending) == Trim(line)
  {
    if TrimStart(line) == "" {
      BlankLine(line, ending);
    } else {
      TrimStartAfter(line, ending);
      TrimOfNewline(ending);
      TrimEndAfter(TrimStart(line), ending);
    }
  }

  lemma TrimOfNewline(ending: string)
    requires ending == "\n" || ending == "\r\n"
    ensures TrimEnd(ending) == "" && Trim(ending) == ""
  {
    assert "\r\n"[..1] == "\r" && "\r"[..0] == "" && "\n"[..0] == "";
    assert "\r\n"[1..] == "\n" && "\n"[1..] == "";
  }

  lemma {:induction false} ContentChunksFirst(content: Content, lines: seq<string>)
    requires lines != []
    ensures ContentChunks(content, lines) == (if Counts(content, lines[0]) then 1 else 0) + ContentChunks(content, lines[1..])
  {
    if |lines| > 1 {
      var n := |lines| - 1;
      ContentChunksFirst(content, lines[..n]);
      assert lines[..n][1..] == lines[1..][..n - 1];
    }
  }

  function RestOf(text: string): string
    requires |Before(text, '\n')| < |text|
  {
    text[|Before(text, '\n')| + 1..]
  }

  lemma StrippedLine(text: string) returns (line: string, ending: string)
    requires |Before(text, '\n')| < |text|
    ensures Lines(text) == [line] + Lines(RestOf(text))
    ensures ending == "\n" || ending == "\r\n"
    ensures line + ending == Before(text, '\n') + "\n"
  {
    var raw := Before(text, '\n');
    BeforeIsPrefix(text, '\n');
    var cr := raw != "" && raw[|raw| - 1] == '\r';
    line, ending := if cr then raw[..|raw| - 1] else raw, if cr then "\r\n" else "\n";
  }

  /** Every line is closed by a newline. */
  predicate Terminated(text: string) {
    text == "" || text[|text| - 1] == '\n'
  }

  /** The one line of the transcript that the stream has not shown. */
  function CountTail(content: Content, text: string): nat {
    if Counts(content, Tail(text)) then 1 else 0
  }

  function CountTailShownOnly(content: Content, text: string): nat {
    if ShownOnly(content, Tail(text)) then 1 else 0
  }

  lemma LastLine(content: Content, text: string)
    requires |Before(text, '\n')| == |text|
    ensures Tokens(content, Complete(text)) == []
    ensures ContentChunks(content, Lines(text)) == CountTail(content, text)
    ensures CountShownOnly(content, Lines(text)) == CountTailShownOnly(content, text)
  {
    if text == "" {
      assert Lines(text) == [];
      assert Trim("") == "";
    } else {
      assert Lines(text) == [text];
      assert [text][..0] == [] && [text][1..] == [];
    }
  }

  /**
   * On any text: the events shown while streaming are the transcript's content chunks, plus the tokens
   * on lines the stream trims too much, minus what an unfinished last line has.
   */
  lemma {:induction false} EventsAndChunks(content: Content, text: string)
    requires IsJson(content)
    ensures |Tokens(content, Complete(text))| + CountTail(content, text) + CountTailShownOnly(content, text) ==
            ContentChunks(content, Lines(text)) + CountShownOnly(content, Lines(text))
    decreases |text|
  {
    if |Before(text, '\n')| == |text| {
      LastLine(content, text);
    } else {
      BeforeIsPrefix(text, '\n');
      var rest, lines := RestOf(text), Lines(text);
      var line, ending := StrippedLine(text);
      assert lines[0] == line && lines[1..] == Lines(rest);
      EventsAndChunks(content, rest);
      ContentChunksFirst(content, lines);
      TrimmedLine(line, ending);
      ReadingsDiffer(content, line);
      FirstToken(content, text);
    }
  }

  lemma {:induction false} NoneShownOnly(content: Content, lines: seq<string>)
    ensures CountShownOnly(content, lines) == 0 <==> forall i :: 0 <= i < |lines| ==> !ShownOnly(content, lines[i])
  {
    if lines != [] {
      NoneShownOnly(content, lines[1..]);
      forall i | 1 <= i < |lines|
        ensures lines[i] == lines[1..][i - 1]
      {
      }
    }
  }

  lemma {:induction false} TerminatedHasNoTail(text: string)
    requires Terminated(text)
    ensures Tail(text) == ""
    decreases |text|
  {
    if text != "" {
      BeforeIsPrefix(text, '\n');
      assert text[|text| - 1] == '\n';
      var rest := RestOf(text);
      TerminatedHasNoTail(rest);
    }
  }

  /**
   * On a newline-terminated text there are as many events as content chunks exactly when no line that
   * starts with whitespace, or ends in whitespace that JSON does not have, carries a token.
   */
  lemma EventsMatchTranscript(content: Content, text: string)
    requires IsJson(content) && Terminated(text)
    ensures |Tokens(content, Complete(text))| == ContentChunks(content, Lines(text)) <==>
            forall i :: 0 <= i < |Lines(text)| ==> !ShownOnly(content, Lines(text)[i])
  {
    EventsAndChunks(content, text);
    NoneShownOnly(content, Lines(text));
    TerminatedHasNoTail(text);
    assert Trim("") == "";
  }

  /** An indented line differs: the stream shows a token the transcript does not count. */
  lemma IndentedLineDiffers(content: Content, d: string)
    requires d != "" && !IsSpace(d[|d| - 1]) && content(d).Some?
    ensures ShownOnly(content, " " + PREFIX + d) && !Counts(content, " " + PREFIX + d)
  {
    var line := PREFIX + d;
    assert line[|PREFIX|..] == d;
    assert TrimEnd(line) == line;
    assert (" " + PREFIX + d)[1..] == line;
    assert TrimStart(" " + PREFIX + d) == TrimStart(line) == line;
  }

  /** So does one that ends in a vertical tab or a form feed: the stream trims it, JSON does not. */
  lemma FormFeedDiffers(content: Content, d: string, c: char)
    requires IsJson(content) && d != "" && !IsSpace(d[|d| - 1]) && content(d).Some?
    requires c == '\U{000B}' || c == '\U{000C}'
    ensures ShownOnly(content, PREFIX + d + [c]) && !Counts(content, PREFIX + d + [c])
  {
    var line := PREFIX + d + [c];
    assert line[..|line| - 1] == PREFIX + d && (PREFIX + d)[|PREFIX|..] == d;
    assert TrimEnd(PREFIX + d) == PREFIX + d;
    assert TrimEnd(line) == PREFIX + d && TrimStart(line) == line;
    assert TrailingSpace(PREFIX + d) == "" && TrailingSpace(line) == [c];
    assert !JsonSpaced([c]) by {
      assert [c][0] == c;
    }
    OverTrimmedIsNotCounted(content, line);
  }

  /** And so does a missing last newline: the transcript counts a token the stream never showed. */
  lemma OpenLineDiffers(content: Content, d: string)
    requires '\n' !in d && d != DONE && content(d).Some?
    ensures Complete(PREFIX + d) == [] && ContentChunks(content, Lines(PREFIX + d)) == 1
  {
    var line := PREFIX + d;
    assert line[|PREFIX|..] == d;
    BeforeAbsent(line, '\n');
    assert Lines(line) == [line];
    assert [line][..0] == [];
  }
}
