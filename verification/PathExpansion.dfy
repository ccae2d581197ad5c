/** `expand_path` (src/config_v1.rs): `~`, `$VAR` and `${VAR}` in a configured path. */
module PathExpansion {
  import opened Prelude
  import opened Text

  type Env = map<string, string>

  datatype ExpandError = Unterminated | NoName | Undefined(name: string)

  predicate IsNameChar(c: char) {
    'a' <= c <= 'z' || 'A' <= c <= 'Z' || '0' <= c <= '9' || c == '_'
  }

  /** The longest run of name characters at the front. */
  function NameRun(s: string): (r: string)
    ensures |r| <= |s|
  {
    if |s| == 0 || !IsNameChar(s[0]) then [] else [s[0]] + NameRun(s[1..])
  }

  /** The variable after a `$`: its name and how many characters it takes. */
  datatype Reference = Reference(name: string, consumed: nat)

  function ReadReference(after: string): (r: Result<Reference, ExpandError>)
    ensures r.Ok? ==> |r.value.name| > 0 && r.value.consumed <= |after|
  {
    if |after| > 0 && after[0] == '{' then
      var name := Before(after[1..], '}');
      if |name| == |after| - 1 then Err(Unterminated)
      else if |name| == 0 then Err(NoName)
      else Ok(Reference(name, |name| + 2))
    else
      var name := NameRun(after);
      if |name| == 0 then Err(NoName) else Ok(Reference(name, |name|))
  }

  /** The first reference of a text: what precedes it, its name, and where the text goes on. */
  datatype Scan = Plain | Fault(error: ExpandError) | Found(text: string, name: string, next: nat)

  function NextReference(s: string): (r: Scan)
    ensures r.Found? ==> 0 < r.next <= |s|
  {
    if |s| == 0 then Plain
    else if s[0] == '$' then
      match ReadReference(s[1..])
      case Err(e) => Fault(e)
      case Ok(ref) => Found([], ref.name, 1 + ref.consumed)
    else Shifted([s[0]], NextReference(s[1..]))
  }

  /** The scan of a text with `text` put before it. */
  function Shifted(text: string, r: Scan): Scan {
    if r.Found? then Found(text + r.text, r.name, |text| + r.next) else r
  }

  function Prepend(text: string, r: Result<string, ExpandError>): Result<string, ExpandError> {
    if r.Ok? then Ok(text + r.value) else r
  }

  /** Each reference replaced by its value, left to right; the first fault is the result. */
  function Substitute(s: string, env: Env): Result<string, ExpandError>
    decreases |s|
  {
    match NextReference(s)
    case Plain => Ok(s)
    case Fault(e) => Err(e)
    case Found(text, name, next) =>
      if name in env then Prepend(text + env[name], Substitute(s[next..], env)) else Err(Undefined(name))
  }

  /** The same with the output so far at hand. */
  function SubstituteFrom(out: string, s: string, env: Env): Result<string, ExpandError>
    decreases |s|
  {
    match NextReference(s)
    case Plain => Ok(out + s)
    case Fault(e) => Err(e)
    case Found(text, name, next) =>
      if name in env then SubstituteFrom(out + text + env[name], s[next..], env) else Err(Undefined(name))
  }

  lemma {:induction false} SubstituteFromPrepends(out: string, s: string, env: Env)
    ensures SubstituteFrom(out, s, env) == Prepend(out, Substitute(s, env))
    decreases |s|
  {
    match NextReference(s)
    case Found(text, name, next) =>
      if name in env {
        SubstituteFromPrepends(out + text + env[name], s[next..], env);
        assert out + text + env[name] == out + (text + env[name]);
        PrependTwice(out, text + env[name], Substitute(s[next..], env));
      }
    case _ =>
  }

  lemma SubstituteFromStart(s: string, env: Env)
    ensures SubstituteFrom([], s, env) == Substitute(s, env)
  {
    SubstituteFromPrepends([], s, env);
    var r := Substitute(s, env);
    assert r.Ok? ==> [] + r.value == r.value;
  }

  lemma {:induction false} ShiftedReference(s: string)
    ensures
      var text := Before(s, '$');
      NextReference(s) ==
        if |text| == |s| then Plain
        else
          match ReadReference(s[|text| + 1..])
          case Err(e) => Fault(e)
          case Ok(ref) => Found(text, ref.name, |text| + 1 + ref.consumed)
  {
    if |s| > 0 && s[0] != '$' {
      ShiftedReference(s[1..]);
      var text := Before(s[1..], '$');
      assert Before(s, '$') == [s[0]] + text;
      if |text| < |s| - 1 {
        assert s[1..][|text| + 1..] == s[|text| + 2..];
      }
    }
  }

  lemma FirstReplaced(out: string, s: string, env: Env)
    requires |Before(s, '$')| < |s|
    ensures
      var text := Before(s, '$');
      var ref := ReadReference(s[|text| + 1..]);
      SubstituteFrom(out, s, env) ==
        if ref.Err? then Err(ref.error)
        else if ref.value.name !in env then Err(Undefined(ref.value.name))
        else SubstituteFrom(out + text + env[ref.value.name], s[|text| + 1 + ref.value.consumed..], env)
  {
    ShiftedReference(s);
  }

  lemma NothingToReplace(out: string, s: string, env: Env)
    requires |Before(s, '$')| == |s|
    ensures SubstituteFrom(out, s, env) == Ok(out + s)
  {
    ShiftedReference(s);
  }

  /** The scan of the source; `rest` is its `s[i..]`, which every round shortens. */
  method SubstituteAll(s: string, env: Env) returns (r: Result<string, ExpandError>)
    ensures r == Substitute(s, env)
  {
    SubstituteFromStart(s, env);
    var out: string, rest := [], s;
    var text := Before(rest, '$');
    while |text| < |rest|
      invariant text == Before(rest, '$')
      invariant Substitute(s, env) == SubstituteFrom(out, rest, env)
      decreases |rest|
    {
      var ref := ReadReference(rest[|text| + 1..]);
      FirstReplaced(out, rest, env);
      if ref.Err? {
        return Err(ref.error);
      }
      if ref.value.name !in env {
        return Err(Undefined(ref.value.name));
      }
      out := out + text + env[ref.value.name];
      rest := rest[|text| + 1 + ref.value.consumed..];
      text := Before(rest, '$');
    }
    NothingToReplace(out, rest, env);
    r := Ok(out + rest);
  }

  lemma PrependTwice(a: string, b: string, r: Result<string, ExpandError>)
    ensures Prepend(a, Prepend(b, r)) == Prepend(a + b, r)
  {
    if r.Ok? {
      assert a + (b + r.value) == a + b + r.value;
    }
  }

  // ---------------------------------------------------------------- the whole function

  /** `Path::join` for a relative second part. */
  function Join(base: string, p: string): string {
    if base == "" || base[|base| - 1] == '/' then base + p else base + "/" + p
  }

  function WithHome(raw: string, env: Env): Result<string, ExpandError> {
    if raw == "~" || "~/" <= raw then Prepend("", if "HOME" in env then Ok(env["HOME"] + raw[1..]) else Err(Undefined("HOME")))
    else Ok(raw)
  }

  function ExpandPath(raw: string, base: string, env: Env): Result<string, ExpandError> {
    var s := WithHome(raw, env);
    if s.Err? then s
    else
      var out := Substitute(s.value, env);
      if out.Err? then out
      else if "/" <= out.value then out
      else Ok(Join(base, out.value))
  }

  method Expand(raw: string, base: string, env: Env) returns (r: Result<string, ExpandError>)
    ensures r == ExpandPath(raw, base, env)
  {
    var s := WithHome(raw, env);
    if s.Err? {
      return s;
    }
    var out := SubstituteAll(s.value, env);
    if out.Err? || "/" <= out.value {
      return out;
    }
    return Ok(Join(base, out.value));
  }

  /** Under an absolute base every expanded path is absolute. */
  lemma ExpandedIsAbsolute(raw: string, base: string, env: Env)
    requires "/" <= base
    ensures ExpandPath(raw, base, env).Ok? ==> "/" <= ExpandPath(raw, base, env).value
  {
  }

  // ---------------------------------------------------------------- the grammar it accepts

  datatype Token = Literal(text: string) | Braced(name: string) | Bare(name: string)

  /** Literals hold no `$`, braces what fits between them, and a bare name is a run of name characters. */
  predicate GoodToken(t: Token) {
    match t
    case Literal(text) => '$' !in text
    case Braced(name) => |name| > 0 && '}' !in name
    case Bare(name) => IsName(name)
  }

  predicate IsName(s: string) {
    |s| > 0 && forall i :: 0 <= i < |s| ==> IsNameChar(s[i])
  }

  function Spell(t: Token): string {
    match t
    case Literal(text) => text
    case Braced(name) => "${" + name + "}"
    case Bare(name) => "$" + name
  }

  function Print(tokens: seq<Token>): string {
    if |tokens| == 0 then "" else Spell(tokens[0]) + Print(tokens[1..])
  }

  /** A bare name takes all the name characters there are. */
  predicate EndsName(s: string) {
    |s| == 0 || !IsNameChar(s[0])
  }

  predicate WellFormed(tokens: seq<Token>) {
    |tokens| == 0 ||
    (GoodToken(tokens[0]) && (tokens[0].Bare? ==> EndsName(Print(tokens[1..]))) && WellFormed(tokens[1..]))
  }

  predicate Defined(tokens: seq<Token>, env: Env) {
    forall i :: 0 <= i < |tokens| && !tokens[i].Literal? ==> tokens[i].name in env
  }

  function Value(t: Token, env: Env): Result<string, ExpandError> {
    if t.Literal? then Ok(t.text) else if t.name in env then Ok(env[t.name]) else Err(Undefined(t.name))
  }

  function Then(a: Result<string, ExpandError>, b: Result<string, ExpandError>): Result<string, ExpandError> {
    if a.Err? then a else Prepend(a.value, b)
  }

  /** What a path means: literals as they are, variables by value, values not looked into. */
  function Meaning(tokens: seq<Token>, env: Env): Result<string, ExpandError> {
    if |tokens| == 0 then Ok("") else Then(Value(tokens[0], env), Meaning(tokens[1..], env))
  }

  function AsToken(s: string, name: string): Token {
    if |s| > 1 && s[1] == '{' then Braced(name) else Bare(name)
  }

  lemma {:induction false} NextAfterText(text: string, s: string)
    requires '$' !in text
    ensures NextReference(text + s) == Shifted(text, NextReference(s))
  {
    if |text| == 0 {
      assert text + s == s;
      ShiftedByNothing(NextReference(s));
    } else {
      assert (text + s)[1..] == text[1..] + s;
      NextAfterText(text[1..], s);
      ShiftedTwice([text[0]], text[1..], NextReference(s));
      assert text == [text[0]] + text[1..];
    }
  }

  lemma ShiftedByNothing(r: Scan)
    ensures Shifted("", r) == r
  {
    if r.Found? {
      assert "" + r.text == r.text;
    }
  }

  lemma ShiftedTwice(a: string, b: string, r: Scan)
    ensures Shifted(a, Shifted(b, r)) == Shifted(a + b, r)
  {
    if r.Found? {
      assert a + (b + r.text) == a + b + r.text;
    }
  }

  lemma FromFound(out: string, s: string, env: Env, text: string, name: string, next: nat)
    requires NextReference(s) == Found(text, name, next)
    ensures SubstituteFrom(out, s, env) ==
      if name in env then SubstituteFrom(out + text + env[name], s[next..], env) else Err(Undefined(name))
  {
  }

  lemma AppendThree(a: string, b: string, c: string)
    ensures a + (b + c) == a + b + c
  {
  }

  lemma DropBoth(a: string, b: string, n: nat)
    requires n <= |b|
    ensures (a + b)[|a| + n..] == b[n..]
  {
  }

  lemma FromAfterText(out: string, text: string, s: string, env: Env)
    requires '$' !in text
    ensures SubstituteFrom(out, text + s, env) == SubstituteFrom(out + text, s, env)
  {
    NextAfterText(text, s);
    var scan := NextReference(s);
    if scan.Found? {
      var t, name, next := scan.text, scan.name, scan.next;
      FromFound(out, text + s, env, text + t, name, |text| + next);
      FromFound(out + text, s, env, t, name, next);
      if name in env {
        DropBoth(text, s, next);
        AppendThree(out, text, t);
      }
    } else if scan.Plain? {
      AppendThree(out, text, s);
    }
  }

  lemma SubstituteAfterText(text: string, s: string, env: Env)
    requires '$' !in text
    ensures Substitute(text + s, env) == Prepend(text, Substitute(s, env))
  {
    SubstituteFromStart(text + s, env);
    FromAfterText([], text, s, env);
    assert [] + text == text;
    SubstituteFromPrepends(text, s, env);
  }

  lemma NextPrinted(name: string, s: string)
    requires |name| > 0 && '}' !in name
    ensures NextReference("${" + name + "}" + s) == Found("", name, |name| + 3)
  {
    var whole := "${" + name + "}" + s;
    var after := whole[1..];
    assert whole[0] == '$' && after == ['{'] + (name + ("}" + s));
    assert after[1..] == name + ("}" + s);
    BeforeFirst(name, "}" + s, '}');
    assert ReadReference(after) == Ok(Reference(name, |name| + 2));
  }

  lemma SubstituteReference(name: string, s: string, env: Env)
    requires |name| > 0 && '}' !in name
    ensures Substitute("${" + name + "}" + s, env) ==
      if name in env then Prepend(env[name], Substitute(s, env)) else Err(Undefined(name))
  {
    NextPrinted(name, s);
    var whole := "${" + name + "}" + s;
    assert whole[|name| + 3..] == s;
    if name in env {
      assert "" + env[name] == env[name];
    }
  }

  lemma {:induction false} NameRunStops(name: string, s: string)
    requires (forall i :: 0 <= i < |name| ==> IsNameChar(name[i])) && EndsName(s)
    ensures NameRun(name + s) == name
  {
    if |name| == 0 {
      assert name + s == s;
    } else {
      assert (name + s)[1..] == name[1..] + s;
      NameRunStops(name[1..], s);
    }
  }

  lemma NextAtDollar(after: string, ref: Reference)
    requires ReadReference(after) == Ok(ref)
    ensures NextReference("$" + after) == Found("", ref.name, 1 + ref.consumed)
  {
    var whole := "$" + after;
    assert whole[0] == '$' && whole[1..] == after;
  }

  lemma NextBare(name: string, s: string)
    requires IsName(name) && EndsName(s)
    ensures NextReference("$" + name + s) == Found("", name, |name| + 1)
  {
    NameRunStops(name, s);
    assert (name + s)[0] == name[0];
    NextAtDollar(name + s, Reference(name, |name|));
    AppendThree("$", name, s);
  }

  lemma SubstituteBare(name: string, s: string, env: Env)
    requires IsName(name) && EndsName(s)
    ensures Substitute("$" + name + s, env) ==
      if name in env then Prepend(env[name], Substitute(s, env)) else Err(Undefined(name))
  {
    NextBare(name, s);
    var whole := "$" + name + s;
    assert whole[|name| + 1..] == s;
    if name in env {
      assert "" + env[name] == env[name];
    }
  }

  lemma SubstituteToken(t: Token, s: string, env: Env)
    requires GoodToken(t) && (t.Bare? ==> EndsName(s))
    ensures Substitute(Spell(t) + s, env) == Then(Value(t, env), Substitute(s, env))
  {
    match t
    case Literal(text) => SubstituteAfterText(text, s, env);
    case Braced(name) => SubstituteReference(name, s, env);
    case Bare(name) => SubstituteBare(name, s, env);
  }

  /** Expanding a printed path gives its meaning, or its first undefined variable. */
  lemma {:induction false} SubstitutePrinted(tokens: seq<Token>, env: Env)
    requires WellFormed(tokens)
    ensures Substitute(Print(tokens), env) == Meaning(tokens, env)
  {
    if |tokens| > 0 {
      SubstitutePrinted(tokens[1..], env);
      SubstituteToken(tokens[0], Print(tokens[1..]), env);
    }
  }

  lemma {:induction false} MeaningIsOk(tokens: seq<Token>, env: Env)
    ensures Meaning(tokens, env).Ok? <==> Defined(tokens, env)
  {
    if |tokens| > 0 {
      MeaningIsOk(tokens[1..], env);
      assert forall i :: 1 <= i < |tokens| ==> tokens[i] == tokens[1..][i - 1];
    }
  }

  lemma {:induction false} NameRunIsName(s: string)
    ensures NameRun(s) <= s && EndsName(s[|NameRun(s)|..])
    ensures forall i :: 0 <= i < |NameRun(s)| ==> IsNameChar(NameRun(s)[i])
  {
    if |s| > 0 && IsNameChar(s[0]) {
      NameRunIsName(s[1..]);
      assert s[1..][|NameRun(s[1..])|..] == s[|NameRun(s)|..];
    }
  }

  /** A reference that could be read is one of the two forms. */
  lemma ReferenceForm(s: string)
    requires |s| > 0 && s[0] == '$' && ReadReference(s[1..]).Ok?
    ensures
      var ref := ReadReference(s[1..]).value;
      var t, rest := AsToken(s, ref.name), s[1 + ref.consumed..];
      GoodToken(t) && (t.Bare? ==> EndsName(rest)) && s == Spell(t) + rest
  {
    var after := s[1..];
    if |after| > 0 && after[0] == '{' {
      BracedForm(s);
    } else {
      BareForm(s);
    }
  }

  lemma BracedSplit(s: string, n: nat)
    requires n + 3 <= |s| && s[0] == '$' && s[1] == '{' && s[n + 2] == '}'
    ensures s == "${" + s[2..][..n] + "}" + s[n + 3..]
  {
  }

  lemma BareSplit(s: string, n: nat)
    requires n + 1 <= |s| && s[0] == '$'
    ensures s == "$" + s[1..][..n] + s[n + 1..] && s[1..][n..] == s[n + 1..]
  {
  }

  lemma BracedForm(s: string)
    requires |s| > 1 && s[0] == '$' && s[1] == '{' && ReadReference(s[1..]).Ok?
    ensures
      var ref := ReadReference(s[1..]).value;
      GoodToken(Braced(ref.name)) && s == Spell(Braced(ref.name)) + s[1 + ref.consumed..]
  {
    var inner := s[2..];
    DropTwice(s, 1, 1);
    var name := Before(inner, '}');
    BeforeIsPrefix(inner, '}');
    assert name == inner[..|name|] && inner[|name|] == '}';
    BracedSplit(s, |name|);
  }

  lemma BareForm(s: string)
    requires |s| > 0 && s[0] == '$' && (|s| > 1 ==> s[1] != '{') && ReadReference(s[1..]).Ok?
    ensures
      var ref := ReadReference(s[1..]).value;
      GoodToken(Bare(ref.name)) && EndsName(s[1 + ref.consumed..]) && s == Spell(Bare(ref.name)) + s[1 + ref.consumed..]
  {
    var after := s[1..];
    var name := NameRun(after);
    NameRunIsName(after);
    assert name == after[..|name|];
    BareSplit(s, |name|);
  }

  lemma DropTwice(s: string, k: nat, n: nat)
    requires k + n <= |s|
    ensures s[k..][n..] == s[k + n..]
  {
  }

  lemma SplitFrom(s: string, k: nat, name: string, next: nat)
    requires k < next <= |s| && s[k] == '$' && ReadReference(s[k + 1..]) == Ok(Reference(name, next - k - 1))
    ensures
      var t := AsToken(s[k..], name);
      GoodToken(t) && (t.Bare? ==> EndsName(s[next..])) && s[k..] == Spell(t) + s[next..]
  {
    DropTwice(s, k, 1);
    DropTwice(s, k, next - k);
    ReferenceForm(s[k..]);
  }

  lemma Rejoin(s: string, k: nat)
    requires k <= |s|
    ensures s == s[..k] + s[k..]
  {
  }

  lemma TwoTokens(text: string, t: Token, rest: seq<Token>)
    requires '$' !in text && GoodToken(t) && (t.Bare? ==> EndsName(Print(rest))) && WellFormed(rest)
    ensures
      var tokens := [Literal(text), t] + rest;
      WellFormed(tokens) && Print(tokens) == text + (Spell(t) + Print(rest))
  {
    var tokens := [Literal(text), t] + rest;
    assert tokens[1..] == [t] + rest && ([t] + rest)[1..] == rest;
  }

  /** A text of literals without `$`, `${name}`, and `$name` with all the name characters that follow. */
  ghost predicate HasForm(s: string, tokens: seq<Token>) {
    WellFormed(tokens) && Print(tokens) == s
  }

  lemma OkGoesOn(s: string, k: nat, env: Env) returns (name: string, next: nat)
    requires Substitute(s, env).Ok? && k == |Before(s, '$')| && k < |s|
    ensures k < next <= |s| && s[k] == '$' && ReadReference(s[k + 1..]) == Ok(Reference(name, next - k - 1))
    ensures Substitute(s[next..], env).Ok?
  {
    ShiftedReference(s);
    var ref := ReadReference(s[k + 1..]);
    name, next := ref.value.name, k + 1 + ref.value.consumed;
  }

  lemma LiteralForm(s: string)
    requires '$' !in s
    ensures HasForm(s, [Literal(s)])
  {
    assert [Literal(s)][1..] == [];
    assert Print([Literal(s)]) == s + "";
  }

  lemma {:induction false} FormOf(s: string, env: Env) returns (tokens: seq<Token>)
    requires Substitute(s, env).Ok?
    ensures HasForm(s, tokens)
    decreases |s|
  {
    var k := |Before(s, '$')|;
    NoDollarBefore(s);
    if k == |s| {
      LiteralForm(s);
      tokens := [Literal(s)];
    } else {
      var name, next := OkGoesOn(s, k, env);
      var rest := FormOf(s[next..], env);
      SplitFrom(s, k, name, next);
      TwoTokens(s[..k], AsToken(s[k..], name), rest);
      Rejoin(s, k);
      tokens := [Literal(s[..k]), AsToken(s[k..], name)] + rest;
    }
  }

  lemma NoDollarBefore(s: string)
    ensures '$' !in s[..|Before(s, '$')|]
    ensures |Before(s, '$')| == |s| ==> '$' !in s
  {
    BeforeIsPrefix(s, '$');
    assert Before(s, '$') == s[..|Before(s, '$')|];
  }

  /** It succeeds exactly on texts of that form whose names are all defined. */
  lemma FailsIffFaulty(s: string, env: Env)
    ensures Substitute(s, env).Ok? <==> exists tokens :: HasForm(s, tokens) && Defined(tokens, env)
  {
    if Substitute(s, env).Ok? {
      var tokens := FormOf(s, env);
      SubstitutePrinted(tokens, env);
      MeaningIsOk(tokens, env);
    }
    if tokens :| HasForm(s, tokens) && Defined(tokens, env) {
      SubstitutePrinted(tokens, env);
      MeaningIsOk(tokens, env);
    }
  }

  /** What goes wrong first: after sound tokens, a reference that has no end, no name, or no value. */
  lemma FirstFault(tokens: seq<Token>, after: string, env: Env)
    requires WellFormed(tokens) && Defined(tokens, env)
    ensures ReadReference(after).Err? ==> Substitute(Print(tokens) + "$" + after, env) == Err(ReadReference(after).error)
    ensures ReadReference(after).Ok? && ReadReference(after).value.name !in env ==>
      Substitute(Print(tokens) + "$" + after, env) == Err(Undefined(ReadReference(after).value.name))
  {
    MeaningIsOk(tokens, env);
    SubstituteBefore(tokens, "$" + after, env);
    assert Print(tokens) + "$" + after == Print(tokens) + ("$" + after);
    FaultAtDollar(after, env);
  }

  lemma FaultAtDollar(after: string, env: Env)
    ensures ReadReference(after).Err? ==> Substitute("$" + after, env) == Err(ReadReference(after).error)
    ensures ReadReference(after).Ok? && ReadReference(after).value.name !in env ==>
      Substitute("$" + after, env) == Err(Undefined(ReadReference(after).value.name))
  {
    var whole := "$" + after;
    assert whole[0] == '$' && whole[1..] == after;
  }

  /** Tokens before any text that starts with no name character are substituted on their own. */
  lemma {:induction false} SubstituteBefore(tokens: seq<Token>, s: string, env: Env)
    requires WellFormed(tokens) && EndsName(s)
    ensures Substitute(Print(tokens) + s, env) == Then(Meaning(tokens, env), Substitute(s, env))
  {
    if |tokens| == 0 {
      assert "" + s == s;
      var r := Substitute(s, env);
      assert r.Ok? ==> "" + r.value == r.value;
    } else {
      var rest := Print(tokens[1..]);
      SubstituteBefore(tokens[1..], s, env);
      EndsBeforeBoth(rest, s);
      AppendThree(Spell(tokens[0]), rest, s);
      SubstituteToken(tokens[0], rest + s, env);
      if Value(tokens[0], env).Ok? && Meaning(tokens[1..], env).Ok? {
        PrependTwice(Value(tokens[0], env).value, Meaning(tokens[1..], env).value, Substitute(s, env));
      }
    }
  }

  /** The two faults of form: an opening brace that no brace closes, and a name that is not there. */
  lemma FaultForms(after: string)
    ensures ReadReference(after) == Err(Unterminated) <==> |after| > 0 && after[0] == '{' && '}' !in after
    ensures ReadReference(after) == Err(NoName) <==>
      "{}" <= after || (EndsName(after) && !(|after| > 0 && after[0] == '{'))
    ensures ReadReference(after).Err? ==> !ReadReference(after).error.Undefined?
  {
    if |after| > 0 && after[0] == '{' {
      var inner := after[1..];
      BeforeIsPrefix(inner, '}');
      assert after == ['{'] + inner;
      if |inner| > 0 && inner[0] == '}' {
        assert after[..2] == "{}";
      }
    } else {
      NameRunIsName(after);
    }
  }

  /** However a text is written as tokens, it means the same. */
  lemma FormsMeanTheSame(s: string, a: seq<Token>, b: seq<Token>, env: Env)
    requires HasForm(s, a) && HasForm(s, b)
    ensures Meaning(a, env) == Meaning(b, env)
  {
    SubstitutePrinted(a, env);
    SubstitutePrinted(b, env);
  }

  // ---------------------------------------------------------------- home and base

  /** `~` alone, or before a slash. */
  predicate HasTilde(raw: string) {
    raw == "~" || "~/" <= raw
  }

  function Located(base: string, out: Result<string, ExpandError>): Result<string, ExpandError> {
    if out.Err? || "/" <= out.value then out else Ok(Join(base, out.value))
  }

  /** An absolute result stays; a relative one goes under the base, with one slash between, no more and no less. */
  lemma LocatedUnderBase(base: string, out: string)
    ensures "/" <= out ==> Located(base, Ok(out)) == Ok(out)
    ensures !("/" <= out) && |base| > 0 && base[|base| - 1] != '/' ==> Located(base, Ok(out)) == Ok(base + "/" + out)
    ensures !("/" <= out) && (|base| > 0 ==> base[|base| - 1] == '/') ==> Located(base, Ok(out)) == Ok(base + out)
  {
  }

  /** An error is passed on, and nothing relative is left under an absolute base. */
  lemma ExpandedUnderBase(raw: string, base: string, env: Env, out: string)
    requires WithHome(raw, env).Ok? && Substitute(WithHome(raw, env).value, env) == Ok(out) && !("/" <= out)
    ensures
      var r := ExpandPath(raw, base, env);
      && r.Ok? && base <= r.value && |r.value| >= |out| && r.value[|r.value| - |out|..] == out
      && |r.value| <= |base| + 1 + |out|
      && (|base| > 0 ==> r.value[|r.value| - |out| - 1] == '/')
      && (|base| == 0 ==> r.value == out)
  {
    var r := Join(base, out);
    assert r[|r| - |out|..] == out;
  }

  /** A printed path without a tilde expands to its meaning, under the base unless that is absolute. */
  lemma ExpandPrinted(tokens: seq<Token>, base: string, env: Env)
    requires WellFormed(tokens) && !HasTilde(Print(tokens))
    ensures ExpandPath(Print(tokens), base, env) == Located(base, Meaning(tokens, env))
  {
    SubstitutePrinted(tokens, env);
  }

  lemma {:induction false} PrintAppend(a: seq<Token>, b: seq<Token>)
    ensures Print(a + b) == Print(a) + Print(b)
  {
    if |a| == 0 {
      assert a + b == b;
    } else {
      assert (a + b)[1..] == a[1..] + b;
      PrintAppend(a[1..], b);
      AppendThree(Spell(a[0]), Print(a[1..]), Print(b));
    }
  }

  lemma {:induction false} WellFormedAppend(a: seq<Token>, b: seq<Token>)
    requires WellFormed(a) && WellFormed(b) && EndsName(Print(b))
    ensures WellFormed(a + b)
  {
    if |a| == 0 {
      assert a + b == b;
    } else {
      assert (a + b)[1..] == a[1..] + b;
      PrintAppend(a[1..], b);
      WellFormedAppend(a[1..], b);
      EndsBeforeBoth(Print(a[1..]), Print(b));
    }
  }

  lemma EndsBeforeBoth(a: string, b: string)
    requires EndsName(b)
    ensures EndsName(a) ==> EndsName(a + b)
  {
  }

  lemma {:induction false} MeaningAppend(a: seq<Token>, b: seq<Token>, env: Env)
    ensures Meaning(a + b, env) == Then(Meaning(a, env), Meaning(b, env))
  {
    if |a| == 0 {
      assert a + b == b;
      var r := Meaning(b, env);
      assert r.Ok? ==> "" + r.value == r.value;
    } else {
      assert (a + b)[1..] == a[1..] + b;
      MeaningAppend(a[1..], b, env);
      if Value(a[0], env).Ok? && Meaning(a[1..], env).Ok? {
        PrependTwice(Value(a[0], env).value, Meaning(a[1..], env).value, Meaning(b, env));
      }
    }
  }

  /**
   * HOME goes in before the scan. So a path behind `~` means what HOME's own text means, with references
   * in it looked up, and then the rest.
   */
  lemma ExpandBehindTilde(home: seq<Token>, rest: seq<Token>, base: string, env: Env)
    requires "HOME" in env && HasForm(env["HOME"], home)
    requires WellFormed(rest) && (|Print(rest)| == 0 || Print(rest)[0] == '/')
    ensures ExpandPath("~" + Print(rest), base, env) == Located(base, Then(Meaning(home, env), Meaning(rest, env)))
  {
    var raw := "~" + Print(rest);
    assert HasTilde(raw) && raw[1..] == Print(rest);
    PrintAppend(home, rest);
    WellFormedAppend(home, rest);
    SubstitutePrinted(home + rest, env);
    MeaningAppend(home, rest, env);
    assert "" + (env["HOME"] + raw[1..]) == env["HOME"] + Print(rest);
  }

  lemma NoHomeNoTilde(raw: string, base: string, env: Env)
    requires "HOME" !in env && HasTilde(raw)
    ensures ExpandPath(raw, base, env) == Err(Undefined("HOME"))
  {
  }

  /** A printed path behind `${HOME}`: HOME's value, not looked into. */
  lemma ExpandBehindHomeByName(rest: seq<Token>, base: string, env: Env)
    requires "HOME" in env && WellFormed(rest)
    ensures ExpandPath("${HOME}" + Print(rest), base, env) == Located(base, Prepend(env["HOME"], Meaning(rest, env)))
  {
    var tokens := [Braced("HOME")] + rest;
    assert tokens[1..] == rest && "HOME" != "";
    assert Spell(Braced("HOME")) == "${HOME}";
    assert Print(tokens) == "${HOME}" + Print(rest);
    assert Print(tokens)[0] == '$';
    ExpandPrinted(tokens, base, env);
  }

  /**
   * `~` and `${HOME}` before the same rest: HOME's text looked into, and HOME's text as it is. If the
   * rest has no fault they agree exactly when HOME's text means itself, as it does without `$`.
   */
  lemma TildeIsRescanned(home: seq<Token>, rest: seq<Token>, base: string, env: Env)
    requires "HOME" in env && HasForm(env["HOME"], home)
    requires WellFormed(rest) && (|Print(rest)| == 0 || Print(rest)[0] == '/')
    ensures
      var tilde, named := Then(Meaning(home, env), Meaning(rest, env)), Prepend(env["HOME"], Meaning(rest, env));
      && ExpandPath("~" + Print(rest), base, env) == Located(base, tilde)
      && ExpandPath("${HOME}" + Print(rest), base, env) == Located(base, named)
      && (Meaning(rest, env).Ok? ==> (tilde == named <==> Meaning(home, env) == Ok(env["HOME"])))
    ensures '$' !in env["HOME"] ==> Meaning(home, env) == Ok(env["HOME"])
  {
    ExpandBehindTilde(home, rest, base, env);
    ExpandBehindHomeByName(rest, base, env);
    if Meaning(rest, env).Ok? && Meaning(home, env).Ok? {
      SameBefore(Meaning(home, env).value, env["HOME"], Meaning(rest, env).value);
    }
    if '$' !in env["HOME"] {
      PlainIsItself(env["HOME"], env);
      SubstitutePrinted(home, env);
    }
  }

  lemma SameBefore(a: string, b: string, c: string)
    ensures a + c == b + c <==> a == b
  {
    if a + c == b + c {
      assert |a| == |b|;
      assert a == (a + c)[..|a|] && b == (b + c)[..|b|];
    }
  }

  lemma PlainIsItself(s: string, env: Env)
    requires '$' !in s
    ensures Substitute(s, env) == Ok(s)
  {
    ShiftedReference(s);
    BeforeIsPrefix(s, '$');
  }
}
