/**
 * `paths_overlap` (docs/specs/vnext/tools/spec_lint.py): whether two tasks declare a common file.
 * Declared paths are brace-expanded, then compared as globs and as directories.
 */
module PathOverlap {
  import opened Prelude
  import opened Text

  // ---------------------------------------------------------------- brace expansion

  /** Between a `{` at `i` and the first `}` after it there is at least one character. */
  predicate GroupAt(p: string, i: nat) {
    i < |p| && p[i] == '{' && 0 < |Body(p, i)| < |p| - i - 1
  }

  function Body(p: string, i: nat): string
    requires i < |p|
  {
    Before(p[i + 1..], '}')
  }

  /** The leftmost group at or after `from`. */
  function FirstGroup(p: string, from: nat): (r: Option<nat>)
    requires from <= |p|
    ensures r.Some? ==> from <= r.value && GroupAt(p, r.value)
    ensures forall i :: from <= i < (if r.Some? then r.value else |p| + 1) ==> !GroupAt(p, i)
    decreases |p| - from
  {
    if GroupAt(p, from) then Some(from)
    else if from == |p| then None
    else FirstGroup(p, from + 1)
  }

  function Split(s: string, c: char): (r: seq<string>)
    ensures |r| > 0
    ensures forall part :: part in r ==> |part| <= |s|
    decreases |s|
  {
    var head := Before(s, c);
    if |head| == |s| then [s] else [head] + Split(s[|head| + 1..], c)
  }

  /** `p` with the group at `i` replaced by one of its parts. */
  function Pick(p: string, i: nat, part: string): string
    requires GroupAt(p, i)
  {
    p[..i] + part + p[i + |Body(p, i)| + 2..]
  }

  /** The inner `expand`: the leftmost group first, and of a finished word what comes before a space. */
  function Expand(p: string): set<string>
    decreases |p|
  {
    var at := FirstGroup(p, 0);
    if at.None? then {Before(p, ' ')}
    else set part, w | part in Split(Body(p, at.value), ',') && w in Expand(Pick(p, at.value, part)) :: w
  }

  /** One level of the recursion. */
  lemma ExpandAtGroup(p: string, i: nat, parts: seq<string>)
    requires FirstGroup(p, 0) == Some(i) && Split(Body(p, i), ',') == parts
    ensures forall x :: x in Expand(p) <==> exists k {:trigger parts[k]} :: 0 <= k < |parts| && x in Expand(Pick(p, i, parts[k]))
  {
    forall x
      ensures x in Expand(p) <==> exists k {:trigger parts[k]} :: 0 <= k < |parts| && x in Expand(Pick(p, i, parts[k]))
    {
      if x in Expand(p) {
        var part :| part in parts && x in Expand(Pick(p, i, part));
        var k :| 0 <= k < |parts| && parts[k] == part;
      }
    }
  }

  // ---------------------------------------------------------------- what it means

  /** A path without nested braces, as its author means it. */
  datatype Token = Lit(text: string) | Group(alts: seq<string>)

  function Join(alts: seq<string>): string {
    if |alts| == 0 then "" else if |alts| == 1 then alts[0] else alts[0] + "," + Join(alts[1..])
  }

  function Print(ts: seq<Token>): string {
    if |ts| == 0 then ""
    else (match ts[0] case Lit(text) => text case Group(alts) => "{" + Join(alts) + "}") + Print(ts[1..])
  }

  predicate Plain(s: string) {
    '{' !in s && '}' !in s && ',' !in s
  }

  /** `{}` is no group: it stays as it is. */
  predicate Printable(t: Token) {
    match t
    case Lit(text) => '{' !in text
    case Group(alts) => |alts| > 0 && Join(alts) != "" && forall k :: 0 <= k < |alts| ==> Plain(alts[k])
  }

  /** Every way to choose one alternative of each group. */
  function Words(ts: seq<Token>): set<string> {
    if |ts| == 0 then {""}
    else match ts[0]
      case Lit(text) => set w | w in Words(ts[1..]) :: text + w
      case Group(alts) => set a, w | a in alts && w in Words(ts[1..]) :: a + w
  }

  lemma {:induction false} SplitJoined(alts: seq<string>)
    requires |alts| > 0 && forall k :: 0 <= k < |alts| ==> ',' !in alts[k] && '}' !in alts[k]
    ensures Split(Join(alts), ',') == alts
    ensures '}' !in Join(alts)
  {
    if |alts| == 1 {
      BeforeAbsent(alts[0], ',');
    } else {
      var rest := Join(alts[1..]);
      SplitJoined(alts[1..]);
      assert alts[0] + "," + rest == alts[0] + ("," + rest);
      BeforeFirst(alts[0], "," + rest, ',');
      assert Join(alts)[|alts[0]| + 1..] == rest;
    }
  }

  /** After text without a brace, the first group is the printed one. */
  lemma GroupIsFirst(before: string, body: string, after: string)
    requires '{' !in before && '}' !in body && body != ""
    ensures
      var p := before + "{" + body + "}" + after;
      && FirstGroup(p, 0) == Some(|before|)
      && Body(p, |before|) == body
      && p[..|before|] == before && p[|before| + |body| + 2..] == after
  {
    var p := before + "{" + body + "}" + after;
    assert p[|before| + 1..] == body + ("}" + after);
    BeforeFirst(body, "}" + after, '}');
    assert GroupAt(p, |before|);
    forall i: nat | i < |before|
      ensures !GroupAt(p, i)
    {
      assert p[i] == before[i];
    }
  }

  lemma NoBraceNoGroup(p: string)
    requires '{' !in p
    ensures FirstGroup(p, 0) == None
  {
  }

  /** Of a set of words, each up to its first space, after a common beginning. */
  function Cut(before: string, words: set<string>): set<string> {
    set w | w in words :: Before(before + w, ' ')
  }

  lemma {:induction false} ExpandAfter(before: string, ts: seq<Token>)
    requires '{' !in before && forall k :: 0 <= k < |ts| ==> Printable(ts[k])
    ensures Expand(before + Print(ts)) == Cut(before, Words(ts))
    decreases |ts|
  {
    if |ts| == 0 {
      NoBraceNoGroup(before);
      assert before + "" == before;
    } else {
      assert Printable(ts[0]);
      match ts[0]
      case Lit(text) => LiteralStep(before, text, ts);
      case Group(alts) => GroupStep(before, alts, ts);
    }
  }

  lemma {:induction false} LiteralStep(before: string, text: string, ts: seq<Token>)
    requires |ts| > 0 && ts[0] == Lit(text)
    requires '{' !in before && '{' !in text && forall k :: 0 <= k < |ts| ==> Printable(ts[k])
    ensures Expand(before + Print(ts)) == Cut(before, Words(ts))
    decreases |ts|, 0
  {
    var rest := ts[1..];
    assert before + Print(ts) == before + text + Print(rest);
    ExpandAfter(before + text, rest);
    forall w | w in Words(rest)
      ensures before + (text + w) == before + text + w
    {
    }
    CutShift(before, text, Words(rest), Words(ts));
  }

  lemma CutShift(before: string, text: string, rest: set<string>, all: set<string>)
    requires all == set w | w in rest :: text + w
    ensures Cut(before + text, rest) == Cut(before, all)
  {
    forall w | w in rest
      ensures text + w in all && before + text + w == before + (text + w)
    {
    }
    forall x | x in Cut(before, all)
      ensures x in Cut(before + text, rest)
    {
      var v :| v in all && x == Before(before + v, ' ');
      var w :| w in rest && v == text + w;
    }
    forall x | x in Cut(before + text, rest)
      ensures x in Cut(before, all)
    {
      var w :| w in rest && x == Before(before + text + w, ' ');
      assert text + w in all;
    }
  }

  lemma {:induction false} GroupStep(before: string, alts: seq<string>, ts: seq<Token>)
    requires |ts| > 0 && ts[0] == Group(alts)
    requires '{' !in before && forall k :: 0 <= k < |ts| ==> Printable(ts[k])
    ensures Expand(before + Print(ts)) == Cut(before, Words(ts))
    decreases |ts|, 0
  {
    var rest := ts[1..];
    assert Printable(ts[0]);
    assert before + Print(ts) == before + "{" + Join(alts) + "}" + Print(rest);
    forall k | 0 <= k < |alts|
      ensures Expand(before + alts[k] + Print(rest)) == Cut(before + alts[k], Words(rest))
    {
      ExpandAfter(before + alts[k], rest);
    }
    SplitJoined(alts);
    var results := ExpandGroup(before, Join(alts), Print(rest), alts);
    CutGroup(before, alts, Words(rest), Words(ts), results, Expand(before + Print(ts)));
  }

  /** Expanding the first group: one set of results for each of its parts. */
  lemma ExpandGroup(before: string, body: string, after: string, parts: seq<string>) returns (results: seq<set<string>>)
    requires '{' !in before && '}' !in body && body != "" && Split(body, ',') == parts
    ensures |results| == |parts|
    ensures forall k :: 0 <= k < |parts| ==> results[k] == Expand(before + parts[k] + after)
    ensures forall x :: x in Expand(before + "{" + body + "}" + after) <==> exists k :: 0 <= k < |results| && x in results[k]
  {
    var p := before + "{" + body + "}" + after;
    GroupIsFirst(before, body, after);
    results := seq(|parts|, k requires 0 <= k < |parts| => Expand(Pick(p, |before|, parts[k])));
    ExpandAtGroup(p, |before|, parts);
    forall x
      ensures x in Expand(p) <==> exists k :: 0 <= k < |results| && x in results[k]
    {
      forall k | 0 <= k < |parts|
        ensures x in results[k] <==> x in Expand(Pick(p, |before|, parts[k]))
      {
      }
    }
  }

  lemma CutGroup(before: string, alts: seq<string>, rest: set<string>, all: set<string>, results: seq<set<string>>, out: set<string>)
    requires all == set a, w | a in alts && w in rest :: a + w
    requires |results| == |alts| && forall k :: 0 <= k < |alts| ==> results[k] == Cut(before + alts[k], rest)
    requires forall x :: x in out <==> exists k :: 0 <= k < |results| && x in results[k]
    ensures out == Cut(before, all)
  {
    forall x
      ensures x in out <==> x in Cut(before, all)
    {
      if x in out {
        var k :| 0 <= k < |results| && x in results[k];
        CutOfOne(before, alts[k], rest, x);
        var w :| w in rest && x == Before(before + (alts[k] + w), ' ');
        assert alts[k] + w in all;
      }
      if x in Cut(before, all) {
        var v :| v in all && x == Before(before + v, ' ');
        var a, w :| a in alts && w in rest && v == a + w;
        var k :| 0 <= k < |alts| && alts[k] == a;
        CutOfOne(before, a, rest, x);
        assert x in results[k];
      }
    }
  }

  lemma CutOfOne(before: string, a: string, rest: set<string>, x: string)
    ensures x in Cut(before + a, rest) <==> exists w :: w in rest && x == Before(before + (a + w), ' ')
  {
    assert forall w: string :: before + a + w == before + (a + w);
  }

  /** A path without nested braces expands to exactly its words, each up to its first space. */
  lemma ExpandPrinted(ts: seq<Token>)
    requires forall k :: 0 <= k < |ts| ==> Printable(ts[k])
    ensures Expand(Print(ts)) == set w | w in Words(ts) :: Before(w, ' ')
  {
    ExpandAfter("", ts);
    assert "" + Print(ts) == Print(ts);
    CutWhole(Words(ts));
  }

  lemma CutWhole(words: set<string>)
    ensures Cut("", words) == set w | w in words :: Before(w, ' ')
  {
    forall w | w in words
      ensures "" + w == w
    {
    }
  }

  /** A group in what comes before a space is a group. */
  lemma GroupInPrefix(a: string, s: string, i: nat)
    requires a <= s && GroupAt(a, i)
    ensures GroupAt(s, i)
  {
    var body := Body(a, i);
    BeforeIsPrefix(a[i + 1..], '}');
    var rest := s[i + 1 + |body|..];
    assert a[i + 1..][|body|] == '}';
    assert rest[0] == s[i + 1 + |body|] == a[i + 1 + |body|];
    assert s[i + 1..] == body + rest by {
      assert forall k :: 0 <= k < |body| ==> body[k] == a[i + 1..][k] == s[i + 1..][k];
    }
    BeforeFirst(body, rest, '}');
  }

  /** On any text: there is a result, and no result has a group left. */
  lemma {:induction false} ExpandedHasNoGroup(p: string)
    ensures Expand(p) != {}
    ensures forall w :: w in Expand(p) ==> FirstGroup(w, 0).None?
    decreases |p|
  {
    var at := FirstGroup(p, 0);
    if at.None? {
      var w := Before(p, ' ');
      BeforeIsPrefix(p, ' ');
      if FirstGroup(w, 0).Some? {
        GroupInPrefix(w, p, FirstGroup(w, 0).value);
      }
      assert w in Expand(p);
    } else {
      var parts := Split(Body(p, at.value), ',');
      forall part | part in parts
        ensures Expand(Pick(p, at.value, part)) != {}
        ensures forall w :: w in Expand(Pick(p, at.value, part)) ==> FirstGroup(w, 0).None?
      {
        ExpandedHasNoGroup(Pick(p, at.value, part));
      }
      assert parts[0] in parts;
      var w :| w in Expand(Pick(p, at.value, parts[0]));
      assert w in Expand(p);
    }
  }

  // ---------------------------------------------------------------- overlap

  function StripStars(s: string): string {
    if |s| > 0 && s[|s| - 1] == '*' then StripStars(s[..|s| - 1]) else s
  }

  predicate EndsWith(s: string, tail: string) {
    |tail| <= |s| && s[|s| - |tail|..] == tail
  }

  /** `x` names a directory, and `y` starts with it. */
  predicate Under(x: string, y: string) {
    (EndsWith(x, "/") || EndsWith(x, "/**")) && StripStars(x) <= y
  }

  /** `glob` is the standard library's `fnmatch`. */
  predicate Overlap(x: string, y: string, glob: (string, string) -> bool) {
    x == y || glob(x, y) || glob(y, x) || Under(x, y) || Under(y, x)
  }

  /** `x` is a directory, written with a slash or with all it holds, and `y` lies in it. */
  ghost predicate Holds(x: string, y: string) {
    exists dir, file :: IsBelow(x, y, dir, file)
  }

  predicate IsBelow(x: string, y: string, dir: string, file: string) {
    (x == dir + "/" || x == dir + "/**") && y == dir + "/" + file
  }

  lemma StarsOfDirectory(dir: string)
    ensures StripStars(dir + "/") == dir + "/" && StripStars(dir + "/**") == dir + "/"
    ensures EndsWith(dir + "/", "/") && EndsWith(dir + "/**", "/**")
  {
    var d, s := dir + "/", dir + "/**";
    assert s[..|s| - 1] == dir + "/*" && (dir + "/*")[..|s| - 2] == d;
    assert StripStars(dir + "/*") == d;
  }

  lemma DirectoryOf(x: string) returns (dir: string)
    requires EndsWith(x, "/") || EndsWith(x, "/**")
    ensures x == dir + "/" || x == dir + "/**"
  {
    if EndsWith(x, "/") {
      dir := x[..|x| - 1];
      assert x == dir + x[|x| - 1..];
    } else {
      dir := x[..|x| - 3];
      assert x == dir + x[|x| - 3..];
    }
  }

  lemma RestAfter(d: string, y: string)
    requires d <= y
    ensures y == d + y[|d|..]
  {
  }

  lemma BeginsWith(d: string, file: string)
    ensures d <= d + file
  {
  }

  lemma UnderIsHolds(x: string, y: string)
    ensures Under(x, y) <==> Holds(x, y)
  {
    if Under(x, y) {
      var dir := DirectoryOf(x);
      StarsOfDirectory(dir);
      RestAfter(dir + "/", y);
      assert IsBelow(x, y, dir, y[|dir + "/"|..]);
    }
    if dir, file :| IsBelow(x, y, dir, file) {
      StarsOfDirectory(dir);
      BeginsWith(dir + "/", file);
    }
  }

  /** Two paths overlap iff they are the same, one as a glob matches the other, or one lies in the other. */
  lemma OverlapMeans(x: string, y: string, glob: (string, string) -> bool)
    ensures Overlap(x, y, glob) <==> x == y || glob(x, y) || glob(y, x) || Holds(x, y) || Holds(y, x)
  {
    UnderIsHolds(x, y);
    UnderIsHolds(y, x);
  }

  ghost predicate Meet(xs: set<string>, ys: set<string>, glob: (string, string) -> bool) {
    exists x, y :: x in xs && y in ys && Overlap(x, y, glob)
  }

  ghost predicate ListsMeet(a: seq<set<string>>, b: seq<set<string>>, glob: (string, string) -> bool) {
    exists i, j :: 0 <= i < |a| && 0 <= j < |b| && Meet(a[i], b[j], glob)
  }

  /** Each declared path with its braces expanded. */
  function Expanded(paths: seq<string>): (r: seq<set<string>>) {
    seq(|paths|, i requires 0 <= i < |paths| => Expand(paths[i]))
  }

  /** The two inner loops, over sets in any order. */
  method FirstOverlap(xs: set<string>, ys: set<string>, glob: (string, string) -> bool) returns (r: Option<string>)
    ensures r.Some? <==> Meet(xs, ys, glob)
    ensures r.Some? ==> r.value in xs && Meet({r.value}, ys, glob)
  {
    var left := xs;
    while left != {}
      invariant left <= xs && !Meet(xs - left, ys, glob)
    {
      var x :| x in left;
      var right := ys;
      while right != {}
        invariant right <= ys && !Meet({x}, ys - right, glob)
      {
        var y :| y in right;
        if Overlap(x, y, glob) {
          return Some(x);
        }
        right := right - {y};
      }
      assert ys - right == ys;
      left := left - {x};
    }
    assert xs - left == xs;
    return None;
  }

  /** The two outer loops. */
  method FirstMeeting(xs: seq<set<string>>, ys: seq<set<string>>, glob: (string, string) -> bool) returns (r: Option<string>)
    ensures r.Some? <==> ListsMeet(xs, ys, glob)
    ensures r.Some? ==> exists i, j :: 0 <= i < |xs| && 0 <= j < |ys| && r.value in xs[i] && Meet({r.value}, ys[j], glob)
  {
    for i := 0 to |xs|
      invariant forall h, k :: 0 <= h < i && 0 <= k < |ys| ==> !Meet(xs[h], ys[k], glob)
    {
      for j := 0 to |ys|
        invariant forall k :: 0 <= k < j ==> !Meet(xs[i], ys[k], glob)
      {
        r := FirstOverlap(xs[i], ys[j], glob);
        if r.Some? {
          return;
        }
      }
    }
    return None;
  }

  method PathsOverlap(a: seq<string>, b: seq<string>, glob: (string, string) -> bool) returns (r: Option<string>)
    ensures r.Some? <==> ListsMeet(Expanded(a), Expanded(b), glob)
    ensures r.Some? ==> exists i, j :: 0 <= i < |a| && 0 <= j < |b| && r.value in Expanded(a)[i] && Meet({r.value}, Expanded(b)[j], glob)
  {
    r := FirstMeeting(Expanded(a), Expanded(b), glob);
  }

  /** It does not matter which task comes first. */
  lemma OverlapIsMutual(a: seq<string>, b: seq<string>, glob: (string, string) -> bool)
    ensures ListsMeet(Expanded(a), Expanded(b), glob) <==> ListsMeet(Expanded(b), Expanded(a), glob)
  {
    var xs, ys := Expanded(a), Expanded(b);
    forall i, j | 0 <= i < |xs| && 0 <= j < |ys|
      ensures Meet(xs[i], ys[j], glob) <==> Meet(ys[j], xs[i], glob)
    {
      MeetIsMutual(xs[i], ys[j], glob);
    }
  }

  lemma MeetIsMutual(xs: set<string>, ys: set<string>, glob: (string, string) -> bool)
    ensures Meet(xs, ys, glob) <==> Meet(ys, xs, glob)
  {
  }

  /** A declared directory meets every path below it, however globs match. */
  lemma DirectoryMeetsContents(dir: string, file: string, glob: (string, string) -> bool)
    ensures Overlap(dir + "/", dir + "/" + file, glob)
    ensures Overlap(dir + "/**", dir + "/" + file, glob)
  {
    StarsOfDirectory(dir);
  }

  // ---------------------------------------------------------------- nested braces

  predicate IsWord(s: string) {
    Plain(s) && ' ' !in s
  }

  ghost predicate AreWords(ss: seq<string>) {
    forall k :: 0 <= k < |ss| ==> IsWord(ss[k])
  }

  /** A group with one group inside: `{A…,a{qs}r,R…}`. */
  datatype Nest = Nest(others: seq<string>, a: string, qs: seq<string>, r: string, more: seq<string>)

  ghost predicate IsNest(n: Nest) {
    AreWords(n.others) && IsWord(n.a) && AreWords(n.qs) && IsWord(n.r) && AreWords(n.more) && |n.qs| > 0 && Join(n.qs) != ""
  }

  /** Up to the first `}`, and from there to the end. */
  function NestBody(n: Nest): string {
    Join(n.others + [n.a]) + "{" + Join(n.qs)
  }

  function NestRest(n: Nest): string {
    Join([n.r] + n.more) + "}"
  }

  function PrintNest(n: Nest): string {
    "{" + NestBody(n) + "}" + NestRest(n)
  }

  /** What its author means: one of the outer alternatives, and of the inner ones where it has the inner group. */
  function NestWords(n: Nest): set<string> {
    (set x | x in n.others) + (set q | q in n.qs :: n.a + q + n.r) + (set x | x in n.more)
  }

  lemma {:induction false} JoinAppend(a: seq<string>, b: seq<string>)
    requires |a| > 0 && |b| > 0
    ensures Join(a + b) == Join(a) + "," + Join(b)
  {
    if |a| == 1 {
      assert (a + b)[1..] == b;
    } else {
      assert (a + b)[1..] == a[1..] + b;
      JoinAppend(a[1..], b);
      assert a[0] + "," + (Join(a[1..]) + "," + Join(b)) == a[0] + "," + Join(a[1..]) + "," + Join(b);
    }
  }

  lemma JoinPrefixed(t: string, first: string, rest: seq<string>)
    ensures Join([t + first] + rest) == t + Join([first] + rest)
  {
    var x, y := [t + first] + rest, [first] + rest;
    if |rest| > 0 {
      assert x[1..] == rest && y[1..] == rest;
      assert t + first + "," + Join(rest) == t + (first + "," + Join(rest));
    }
  }

  lemma JoinSuffixed(init: seq<string>, last: string, t: string)
    ensures Join(init + [last + t]) == Join(init + [last]) + t
  {
    if |init| > 0 {
      JoinAppend(init, [last + t]);
      JoinAppend(init, [last]);
      assert Join(init) + "," + (last + t) == Join(init) + "," + last + t;
    } else {
      assert init + [last + t] == [last + t] && init + [last] == [last];
    }
  }

  /** The parts the first group is cut into: the inner group is cut at its commas. */
  function NestParts(n: Nest): seq<string>
    requires |n.qs| > 0
  {
    n.others + [n.a + "{" + n.qs[0]] + n.qs[1..]
  }

  lemma NestBodyIsJoined(n: Nest)
    requires IsNest(n)
    ensures Join(NestParts(n)) == NestBody(n)
  {
    var q := n.qs;
    var head := n.others + [n.a];
    var front := Join(head) + "{";
    JoinSuffixed(n.others, n.a, "{" + q[0]);
    assert n.a + ("{" + q[0]) == n.a + "{" + q[0];
    assert Join(n.others + [n.a + "{" + q[0]]) == front + q[0] by {
      assert Join(head) + ("{" + q[0]) == front + q[0];
    }
    if |q| > 1 {
      JoinAppend(n.others + [n.a + "{" + q[0]], q[1..]);
      assert front + q[0] + "," + Join(q[1..]) == front + (q[0] + "," + Join(q[1..]));
    } else {
      assert NestParts(n) == n.others + [n.a + "{" + q[0]];
    }
  }

  lemma NestSplits(n: Nest)
    requires IsNest(n)
    ensures '}' !in NestBody(n) && NestBody(n) != "" && Split(NestBody(n), ',') == NestParts(n)
  {
    var parts := NestParts(n);
    NestBodyIsJoined(n);
    forall k | 0 <= k < |parts|
      ensures ',' !in parts[k] && '}' !in parts[k]
    {
      if k > |n.others| {
        assert parts[k] == n.qs[k - |n.others|];
      }
    }
    SplitJoined(parts);
  }

  lemma OneWord(w: string)
    requires '{' !in w && ' ' !in w
    ensures Expand(w) == {w}
  {
    NoBraceNoGroup(w);
    BeforeAbsent(w, ' ');
  }

  lemma {:induction false} JoinedHas(ss: seq<string>, c: char)
    requires c != ',' && forall k :: 0 <= k < |ss| ==> c !in ss[k]
    ensures c !in Join(ss)
  {
    if |ss| > 1 {
      JoinedHas(ss[1..], c);
    }
  }

  lemma LeadingPick(body: string, rest: string, part: string)
    requires '}' !in body && |body| > 0
    ensures GroupAt("{" + body + "}" + rest, 0) && Pick("{" + body + "}" + rest, 0, part) == part + rest
  {
    GroupIsFirst("", body, rest);
    assert "" + "{" + body + "}" + rest == "{" + body + "}" + rest;
    assert "" + part + rest == part + rest;
  }

  lemma LeadingIsFirst(body: string, rest: string)
    requires '}' !in body && |body| > 0
    ensures FirstGroup("{" + body + "}" + rest, 0) == Some(0) && Body("{" + body + "}" + rest, 0) == body
  {
    GroupIsFirst("", body, rest);
    assert "" + "{" + body + "}" + rest == "{" + body + "}" + rest;
  }

  /** A group at the very start: one set of results for each part. */
  lemma LeadingGroup(body: string, rest: string, parts: seq<string>) returns (results: seq<set<string>>)
    requires '}' !in body && |body| > 0 && Split(body, ',') == parts
    ensures |results| == |parts|
    ensures forall k :: 0 <= k < |parts| ==> results[k] == Expand(parts[k] + rest)
    ensures forall x :: x in Expand("{" + body + "}" + rest) <==> exists k :: 0 <= k < |results| && x in results[k]
  {
    var p := "{" + body + "}" + rest;
    LeadingIsFirst(body, rest);
    results := seq(|parts|, k requires 0 <= k < |parts| => Expand(Pick(p, 0, parts[k])));
    ExpandAtGroup(p, 0, parts);
    SameResults(Expand(p), p, parts, results);
    forall k | 0 <= k < |parts|
      ensures results[k] == Expand(parts[k] + rest)
    {
      LeadingPick(body, rest, parts[k]);
    }
  }

  lemma SameResults(out: set<string>, p: string, parts: seq<string>, results: seq<set<string>>)
    requires GroupAt(p, 0) && |results| == |parts|
    requires forall k :: 0 <= k < |parts| ==> results[k] == Expand(Pick(p, 0, parts[k]))
    requires forall x :: x in out <==> exists k {:trigger parts[k]} :: 0 <= k < |parts| && x in Expand(Pick(p, 0, parts[k]))
    ensures forall x :: x in out <==> exists k :: 0 <= k < |results| && x in results[k]
  {
    forall x
      ensures x in out <==> exists k :: 0 <= k < |results| && x in results[k]
    {
      if x in out {
        var k :| 0 <= k < |parts| && x in Expand(Pick(p, 0, parts[k]));
        assert x in results[k];
      }
      if k :| 0 <= k < |results| && x in results[k] {
        assert x in Expand(Pick(p, 0, parts[k]));
      }
    }
  }

  lemma PartsAreWords(n: Nest, k: nat)
    requires IsNest(n) && k < |NestParts(n)| && k != |n.others|
    ensures IsWord(NestParts(n)[k])
  {
    var parts := NestParts(n);
    assert k < |n.others| ==> parts[k] == n.others[k];
    assert k > |n.others| ==> parts[k] == n.qs[k - |n.others|];
  }

  lemma RestIsBraceless(n: Nest)
    requires IsNest(n)
    ensures '{' !in NestRest(n) && ' ' !in NestRest(n) && NestRest(n)[|NestRest(n)| - 1] == '}'
  {
    var ss := [n.r] + n.more;
    forall k | 0 <= k < |ss|
      ensures IsWord(ss[k])
    {
      assert k > 0 ==> ss[k] == n.more[k - 1];
    }
    JoinedHas(ss, '{');
    JoinedHas(ss, ' ');
  }

  /** An outer alternative before the inner group, or an inner one after the first, keeps the last brace. */
  lemma StrayBrace(n: Nest, k: nat)
    requires IsNest(n) && k < |NestParts(n)| && k != |n.others|
    ensures NestParts(n)[k] + NestRest(n) in Expand(PrintNest(n)) && NestParts(n)[k] + NestRest(n) !in NestWords(n)
  {
    var w := NestParts(n)[k] + NestRest(n);
    PartsAreWords(n, k);
    RestIsBraceless(n);
    OneWord(w);
    NestSplits(n);
    var results := LeadingGroup(NestBody(n), NestRest(n), NestParts(n));
    assert w in results[k];
    assert w[|w| - 1] == '}';
    WordsHaveNoBrace(n, w);
  }

  lemma WordsHaveNoBrace(n: Nest, w: string)
    requires IsNest(n)
    ensures w in NestWords(n) ==> '}' !in w
  {
    if q :| q in n.qs && w == n.a + q + n.r {
      assert IsWord(q);
    }
  }

  lemma WordsOfGroup(alts: seq<string>)
    ensures Words([Group(alts)]) == set x | x in alts
  {
    var ts := [Group(alts)];
    assert ts[1..] == [] && Words([]) == {""};
    forall v
      ensures v in Words(ts) <==> v in alts
    {
      assert v + "" == v;
      if v in Words(ts) {
        var a, w :| a in alts && w in Words(ts[1..]) && v == a + w;
        assert a + "" == a;
      }
    }
  }

  lemma CutOfWords(before: string, alts: seq<string>)
    requires ' ' !in before && AreWords(alts)
    ensures Cut(before, Words([Group(alts)])) == set x | x in alts :: before + x
  {
    WordsOfGroup(alts);
    forall x | x in alts
      ensures Before(before + x, ' ') == before + x
    {
      BeforeAbsent(before + x, ' ');
    }
  }

  /** One group after a text. */
  lemma OneGroup(before: string, alts: seq<string>)
    requires IsWord(before) && |alts| > 0 && Join(alts) != "" && AreWords(alts)
    ensures Expand(before + "{" + Join(alts) + "}") == set x | x in alts :: before + x
  {
    var ts := [Group(alts)];
    assert Printable(ts[0]);
    assert ts[1..] == [] && Print([]) == "";
    assert before + Print(ts) == before + "{" + Join(alts) + "}";
    ExpandAfter(before, ts);
    CutOfWords(before, alts);
  }

  lemma JoinIsNotEmpty(first: string, rest: seq<string>)
    requires first != ""
    ensures Join([first] + rest) != ""
  {
  }

  lemma OnePart(body: string, rest: string, part: string)
    requires '}' !in body && body != "" && Split(body, ',') == [part]
    ensures Expand("{" + body + "}" + rest) == Expand(part + rest)
  {
    var results := LeadingGroup(body, rest, [part]);
    assert results[0] == Expand([part][0] + rest);
    OneSet(Expand("{" + body + "}" + rest), results);
  }

  lemma OneSet(out: set<string>, results: seq<set<string>>)
    requires |results| == 1
    requires forall x :: x in out <==> exists k :: 0 <= k < |results| && x in results[k]
    ensures out == results[0]
  {
    forall x
      ensures x in out <==> x in results[0]
    {
      if x in results[0] {
        assert 0 < |results|;
      }
    }
  }

  /** With nothing before the inner group and one alternative in it, what is after it moves in. */
  lemma SoleInner(n: Nest)
    requires IsNest(n) && n.others == [] && |n.qs| == 1
    ensures Expand(PrintNest(n)) == set x | x in [n.qs[0] + n.r] + n.more :: n.a + x
  {
    var q := n.qs[0];
    var alts := [q + n.r] + n.more;
    NestSplits(n);
    assert NestParts(n) == [n.a + "{" + q];
    OnePart(NestBody(n), NestRest(n), n.a + "{" + q);
    SoleText(n);
    SoleAlts(n);
    OneGroup(n.a, alts);
  }

  lemma SoleText(n: Nest)
    requires |n.qs| == 1
    ensures n.a + "{" + n.qs[0] + NestRest(n) == n.a + "{" + Join([n.qs[0] + n.r] + n.more) + "}"
  {
    JoinPrefixed(n.qs[0], n.r, n.more);
  }

  lemma SoleAlts(n: Nest)
    requires IsNest(n) && |n.qs| == 1
    ensures AreWords([n.qs[0] + n.r] + n.more) && Join([n.qs[0] + n.r] + n.more) != ""
  {
    var alts := [n.qs[0] + n.r] + n.more;
    assert forall k :: 1 <= k < |alts| ==> alts[k] == n.more[k - 1];
    assert Join(n.qs) == n.qs[0];
    JoinIsNotEmpty(n.qs[0] + n.r, n.more);
  }

  /** Putting `a` before the one word and the others adds nothing only if `a` or the others are empty. */
  lemma PrefixedSets(a: string, w: string, more: seq<string>)
    ensures (set x | x in [w] + more :: a + x) == {a + w} + (set x | x in more) <==> a == "" || more == []
  {
    if |a| > 0 && |more| > 0 {
      LongestDiffers(a, w, more);
    } else if |a| == 0 {
      EmptyPrefix(a, w, more);
    }
  }

  lemma EmptyPrefix(a: string, w: string, more: seq<string>)
    requires |a| == 0
    ensures (set x | x in [w] + more :: a + x) == {a + w} + set x | x in more
  {
    var left, right := set x | x in [w] + more :: a + x, {a + w} + set x | x in more;
    forall v
      ensures v in left <==> v in right
    {
      assert a + v == v && a + w == w;
      if v in left {
        var x :| x in [w] + more && v == a + x;
        assert a + x == x;
      }
      if v in right {
        assert v in [w] + more;
      }
    }
  }

  lemma {:induction false} Longest(ss: seq<string>) returns (k: nat)
    requires ss != []
    ensures k < |ss| && forall j :: 0 <= j < |ss| ==> |ss[j]| <= |ss[k]|
  {
    k := 0;
    if |ss| > 1 {
      var m := Longest(ss[1..]);
      k := if |ss[1..][m]| >= |ss[0]| then m + 1 else 0;
      assert forall j :: 1 <= j < |ss| ==> ss[j] == ss[1..][j - 1];
    }
  }

  lemma {:induction false} Shortest(ss: seq<string>) returns (k: nat)
    requires ss != []
    ensures k < |ss| && forall j :: 0 <= j < |ss| ==> |ss[j]| >= |ss[k]|
  {
    k := 0;
    if |ss| > 1 {
      var m := Shortest(ss[1..]);
      k := if |ss[1..][m]| <= |ss[0]| then m + 1 else 0;
      assert forall j :: 1 <= j < |ss| ==> ss[j] == ss[1..][j - 1];
    }
  }

  /** The longest of them with `a` before it, or else the shortest without, is in one set only. */
  lemma LongestDiffers(a: string, w: string, more: seq<string>)
    requires a != "" && more != []
    ensures (set x | x in [w] + more :: a + x) != {a + w} + set x | x in more
  {
    var left, right := set x | x in [w] + more :: a + x, {a + w} + set x | x in more;
    var k := Longest(more);
    var m := Shortest(more);
    if more[k] != w {
      assert more[k] in [w] + more;
      assert (a + more[k])[|a|..] == more[k] && (a + w)[|a|..] == w;
      assert a + more[k] in left && a + more[k] !in right;
    } else {
      assert more[m] in right;
      forall x | x in [w] + more
        ensures |a + x| > |more[m]|
      {
      }
      assert more[m] !in left;
    }
  }

  /** Two sets as one: the outer alternatives are none, and the inner one alone. */
  lemma SoleWords(n: Nest)
    requires IsNest(n) && n.others == [] && |n.qs| == 1
    ensures NestWords(n) == {n.a + (n.qs[0] + n.r)} + set x | x in n.more
  {
    assert n.qs == [n.qs[0]];
    assert n.a + n.qs[0] + n.r == n.a + (n.qs[0] + n.r);
  }

  /**
   * The first `}` closes the outer group. So a nested group is expanded as its author means exactly when
   * there is no outer alternative before the inner group, the inner group has one alternative, and not
   * both something before it in its alternative and an alternative after it: `{x{b}y}` and `{{b},a}`
   * are, `{a{b,c}}`, `{d,{b}}` and `{a{b},c}` are not.
   */
  lemma NestedAgreesIff(n: Nest)
    requires IsNest(n)
    ensures Expand(PrintNest(n)) == NestWords(n) <==> n.others == [] && |n.qs| == 1 && (n.a == "" || n.more == [])
  {
    if n.others != [] {
      StrayBrace(n, 0);
    } else if |n.qs| > 1 {
      StrayBrace(n, 1);
    } else {
      SoleInner(n);
      SoleWords(n);
      PrefixedSets(n.a, n.qs[0] + n.r, n.more);
    }
  }
}
