/**
 * Recorded bodies (tools/fake-llama-server/src/record.rs): user text and secrets masked in a JSON
 * value, and the key paths a recording is compared by.
 */
module JsonRedaction {
  import opened Prelude
  import opened Text

  datatype Json = Null | Bool(b: bool) | Number(n: real) | Str(s: string) | Arr(items: seq<Json>) | Obj(fields: seq<Field>)

  datatype Field = Field(key: string, value: Json)

  const MASK := "<redacted>"
  const REDACT_KEYS: seq<string> := ["prompt", "content", "text", "generated", "generated_text"]
  const SECRET_FLAGS: seq<string> := ["--api-key", "--api-key-file", "--hf-token", "--ssl-key-file"]

  /** The first secret flag `s` gives a value to, as in `--api-key=...`. */
  function FlagOf(s: string, flags: seq<string>): (r: Option<string>)
    ensures r.Some? ==> r.value in flags && r.value + "=" <= s
    ensures r.None? ==> forall f :: f in flags ==> !(f + "=" <= s)
  {
    if flags == [] then None
    else if flags[0] + "=" <= s then Some(flags[0])
    else FlagOf(s, flags[1..])
  }

  function MaskFlagValue(s: string): string {
    var f := FlagOf(s, SECRET_FLAGS);
    if f.Some? then f.value + "=" + MASK else s
  }

  predicate IsSecretFlag(v: Json) {
    v.Str? && v.s in SECRET_FLAGS
  }

  function Redact(v: Json): (r: Json)
    ensures r.Str? <==> v.Str?
    decreases v, 1
  {
    match v
    case Obj(fields) => Obj(RedactFields(fields))
    case Arr(items) => Arr(RedactItems(items, false))
    case _ => v
  }

  function RedactFields(fields: seq<Field>): (r: seq<Field>)
    ensures |r| == |fields|
    decreases fields, 0
  {
    if fields == [] then []
    else
      var f := fields[0];
      [if f.value.Str? && f.key in REDACT_KEYS then f.(value := Str(MASK)) else f.(value := Redact(f.value))]
      + RedactFields(fields[1..])
  }

  /** `maskNext` says that the item before was a secret flag. */
  function RedactItems(items: seq<Json>, maskNext: bool): (r: seq<Json>)
    ensures |r| == |items|
    decreases items, 0
  {
    if items == [] then []
    else [RedactItem(items[0], maskNext)] + RedactItems(items[1..], MasksNext(items[0], maskNext))
  }

  function RedactItem(x: Json, maskNext: bool): Json
    decreases x, 2
  {
    if !x.Str? then Redact(x)
    else if maskNext then Str(MASK)
    else if x.s in SECRET_FLAGS then x
    else Str(MaskFlagValue(x.s))
  }

  predicate MasksNext(x: Json, maskNext: bool) {
    IsSecretFlag(x) && !maskNext
  }

  method RedactValue(v: Json) returns (r: Json)
    ensures r == Redact(v)
    decreases v, 1
  {
    match v
    case Obj(fields) => r := RedactObject(v);
    case Arr(items) => r := RedactArray(v);
    case _ => r := v;
  }

  method RedactObject(v: Json) returns (r: Json)
    requires v.Obj?
    ensures r == Redact(v)
    decreases v, 0
  {
    var fields, out := v.fields, [];
    ghost var all := RedactFields(fields);
    for n := 0 to |fields|
      invariant out == all[..n]
      invariant RedactFields(fields[n..]) == all[n..]
    {
      var f := fields[n];
      assert fields[n..][0] == f && fields[n..][1..] == fields[n + 1..];
      assert all[n..][0] == all[n] && all[n..][1..] == all[n + 1..];
      if f.value.Str? && f.key in REDACT_KEYS {
        out := out + [f.(value := Str(MASK))];
      } else {
        var x := RedactValue(f.value);
        out := out + [f.(value := x)];
      }
    }
    r := Obj(out);
  }

  method RedactArray(v: Json) returns (r: Json)
    requires v.Arr?
    ensures r == Redact(v)
    decreases v, 0
  {
    var items, out, maskNext := v.items, [], false;
    ghost var all := RedactItems(items, false);
    for n := 0 to |items|
      invariant out == all[..n]
      invariant RedactItems(items[n..], maskNext) == all[n..]
    {
      var x := items[n];
      assert items[n..][0] == x && items[n..][1..] == items[n + 1..];
      assert all[n..][0] == all[n] && all[n..][1..] == all[n + 1..];
      ghost var before, masked := out, maskNext;
      if x.Str? {
        if maskNext {
          out := out + [Str(MASK)];
          maskNext := false;
        } else if x.s in SECRET_FLAGS {
          out := out + [x];
          maskNext := true;
        } else {
          out := out + [Str(MaskFlagValue(x.s))];
        }
      } else {
        maskNext := false;
        var y := RedactValue(x);
        out := out + [y];
      }
      assert out == before + [RedactItem(x, masked)] && maskNext == MasksNext(x, masked);
    }
    r := Arr(out);
  }

  // ---------------------------------------------------------------- what is masked

  /** Nothing left to mask: the state every redacted value is in. */
  ghost predicate Clean(v: Json) {
    match v
    case Obj(fields) => forall i :: 0 <= i < |fields| ==> CleanField(fields[i])
    case Arr(items) =>
      && (forall i :: 0 <= i < |items| ==> Clean(items[i]))
      && (forall i :: 0 <= i < |items| ==> CleanItem(items, i))
    case _ => true
  }

  ghost predicate CleanField(f: Field) {
    Clean(f.value) && (f.value.Str? && f.key in REDACT_KEYS ==> f.value == Str(MASK))
  }

  /** A string right after a secret flag is the mask, and so is the value in `--flag=value`. */
  predicate CleanItem(items: seq<Json>, i: nat)
    requires i < |items|
  {
    items[i].Str? ==>
      && (i > 0 && IsSecretFlag(items[i - 1]) ==> items[i] == Str(MASK))
      && FlagsMasked(items[i].s)
  }

  /** If the string gives a secret flag a value, that is the mask. */
  predicate FlagsMasked(s: string) {
    forall f :: f in SECRET_FLAGS && f + "=" <= s ==> s == f + "=" + MASK
  }

  lemma FlagsHaveNoEquals(f: string)
    ensures f in SECRET_FLAGS ==> '=' !in f
    ensures '=' !in MASK && MASK !in SECRET_FLAGS
  {
    var flags := SECRET_FLAGS;
    assert '=' !in flags[0] && '=' !in flags[1] && '=' !in flags[2] && '=' !in flags[3];
    assert flags[0][0] == flags[1][0] == flags[2][0] == flags[3][0] == '-' && MASK[0] == '<';
  }

  lemma FlagIsBeforeEquals(s: string, f: string)
    requires '=' !in f && f + "=" <= s
    ensures Before(s, '=') == f && '=' in s
  {
    assert s[|f|] == (f + "=")[|f|];
    assert s == f + s[|f|..];
    BeforeFirst(f, s[|f|..], '=');
  }

  /** A flag ends at the first equals sign, so a string gives a value to at most one. */
  lemma FlagIsUnique(s: string, f: string, g: string)
    requires f in SECRET_FLAGS && g in SECRET_FLAGS && f + "=" <= s && g + "=" <= s
    ensures f == g && s !in SECRET_FLAGS
  {
    FlagsHaveNoEquals(f);
    FlagsHaveNoEquals(g);
    FlagsHaveNoEquals(s);
    FlagIsBeforeEquals(s, f);
    FlagIsBeforeEquals(s, g);
  }

  lemma NoEqualsNoFlag(s: string)
    requires '=' !in s
    ensures FlagOf(s, SECRET_FLAGS).None?
  {
    forall f | f in SECRET_FLAGS
      ensures !(f + "=" <= s)
    {
      if f + "=" <= s {
        FlagsHaveNoEquals(f);
        FlagIsBeforeEquals(s, f);
      }
    }
  }

  /** The mask, and a masked flag value, are neither flags nor masked any further. */
  lemma MaskedIsStable(s: string)
    ensures MaskFlagValue(MASK) == MASK && MASK !in SECRET_FLAGS
    ensures MaskFlagValue(MaskFlagValue(s)) == MaskFlagValue(s)
    ensures s in SECRET_FLAGS ==> MaskFlagValue(s) == s
    ensures s !in SECRET_FLAGS ==> MaskFlagValue(s) !in SECRET_FLAGS
  {
    FlagsHaveNoEquals(s);
    NoEqualsNoFlag(MASK);
    if s in SECRET_FLAGS {
      NoEqualsNoFlag(s);
    }
    var f := FlagOf(s, SECRET_FLAGS);
    if f.Some? {
      var t := MaskFlagValue(s);
      assert f.value + "=" <= t;
      FlagIsUnique(t, f.value, f.value);
      var g := FlagOf(t, SECRET_FLAGS);
      assert g.Some?;
      FlagIsUnique(t, f.value, g.value);
    }
  }

  /** The value given to a secret flag is masked, whatever it is, and no other string is touched. */
  lemma FlagValueIsMasked(s: string, f: string)
    ensures f in SECRET_FLAGS && f + "=" <= s ==> MaskFlagValue(s) == f + "=" + MASK
    ensures (forall g :: g in SECRET_FLAGS ==> !(g + "=" <= s)) ==> MaskFlagValue(s) == s
    ensures MaskFlagValue(s) == s <==> FlagsMasked(s)
  {
    var g := FlagOf(s, SECRET_FLAGS);
    if g.Some? {
      forall h | h in SECRET_FLAGS && h + "=" <= s
        ensures h == g.value
      {
        FlagIsUnique(s, h, g.value);
      }
    }
  }

  lemma ItemStep(x: Json, maskNext: bool)
    ensures IsSecretFlag(RedactItem(x, maskNext)) <==> MasksNext(x, maskNext)
    ensures x.Str? ==> RedactItem(x, maskNext) == if maskNext then Str(MASK) else Str(MaskFlagValue(x.s))
  {
    if x.Str? {
      MaskedIsStable(x.s);
    }
  }

  /** An array string is masked exactly when the string put out before it is a secret flag. */
  lemma {:induction false} ItemByItem(items: seq<Json>, maskNext: bool, i: nat)
    requires i < |items| && items[i].Str?
    ensures
      var out := RedactItems(items, maskNext);
      out[i] == if (if i == 0 then maskNext else IsSecretFlag(out[i - 1])) then Str(MASK) else Str(MaskFlagValue(items[i].s))
  {
    ItemStep(items[0], maskNext);
    if i > 0 {
      ItemByItem(items[1..], MasksNext(items[0], maskNext), i - 1);
    }
  }

  lemma {:induction false} ItemsStayInKind(items: seq<Json>, maskNext: bool, i: nat)
    requires i < |items|
    ensures items[i].Str? <==> RedactItems(items, maskNext)[i].Str?
    ensures !items[i].Str? ==> RedactItems(items, maskNext)[i] == Redact(items[i])
  {
    if i > 0 {
      ItemsStayInKind(items[1..], MasksNext(items[0], maskNext), i - 1);
    }
  }

  lemma {:induction false} FieldByField(fields: seq<Field>, i: nat)
    requires i < |fields|
    ensures
      var f := fields[i];
      RedactFields(fields)[i] == f.(value := if f.value.Str? && f.key in REDACT_KEYS then Str(MASK) else Redact(f.value))
  {
    if i > 0 {
      FieldByField(fields[1..], i - 1);
    }
  }

  /**
   * After redaction, at any depth: every string under a user-text key is the mask, every array string
   * right after a secret flag that is still there is the mask, and every `--flag=` holds the mask.
   */
  lemma {:induction false} RedactedIsClean(v: Json)
    ensures Clean(Redact(v))
  {
    match v
    case Obj(fields) =>
      forall i | 0 <= i < |fields|
        ensures CleanField(RedactFields(fields)[i])
      {
        FieldByField(fields, i);
        RedactedIsClean(fields[i].value);
      }
    case Arr(items) =>
      var out := RedactItems(items, false);
      forall i | 0 <= i < |items|
        ensures Clean(out[i]) && CleanItem(out, i)
      {
        ItemsStayInKind(items, false, i);
        if items[i].Str? {
          ItemByItem(items, false, i);
          MaskedIsStable(items[i].s);
          FlagValueIsMasked(out[i].s, "");
        } else {
          RedactedIsClean(items[i]);
        }
      }
    case _ =>
  }

  /** A clean value is left alone. */
  lemma {:induction false} CleanIsFixed(v: Json)
    requires Clean(v)
    ensures Redact(v) == v
  {
    match v
    case Obj(fields) =>
      forall i | 0 <= i < |fields|
        ensures RedactFields(fields)[i] == fields[i]
      {
        FieldByField(fields, i);
        assert CleanField(fields[i]);
        CleanIsFixed(fields[i].value);
      }
    case Arr(items) =>
      forall i | 0 <= i < |items|
        ensures RedactItems(items, false)[i] == items[i]
      {
        CleanItemIsFixed(v, i);
      }
    case _ =>
  }

  lemma {:induction false} CleanItemIsFixed(v: Json, i: nat)
    requires v.Arr? && Clean(v) && i < |v.items|
    ensures RedactItems(v.items, false)[i] == v.items[i]
    decreases v, i
  {
    assert Clean(v.items[i]) && CleanItem(v.items, i);
    ItemsStayInKind(v.items, false, i);
    if v.items[i].Str? {
      ItemByItem(v.items, false, i);
      FlagValueIsMasked(v.items[i].s, "");
      if i > 0 {
        CleanItemIsFixed(v, i - 1);
      }
    } else {
      CleanIsFixed(v.items[i]);
    }
  }

  /** Redaction changes a value exactly when there is something to mask, so doing it twice is doing it once. */
  lemma RedactionIsIdempotent(v: Json)
    ensures Redact(v) == v <==> Clean(v)
    ensures Redact(Redact(v)) == Redact(v)
  {
    RedactedIsClean(v);
    CleanIsFixed(Redact(v));
    if Clean(v) {
      CleanIsFixed(v);
    }
  }

  // ---------------------------------------------------------------- what is kept

  /** `r` is `v` but for masks, and each mask has its reason. */
  ghost predicate OnlyMasked(v: Json, r: Json)
    decreases v, 0
  {
    match v
    case Obj(fields) =>
      r.Obj? && |r.fields| == |fields| && forall i :: 0 <= i < |fields| ==> FieldMasked(fields[i], r.fields[i])
    case Arr(items) =>
      r.Arr? && |r.items| == |items| && forall i :: 0 <= i < |items| ==> ItemMasked(items[i], r.items, i)
    case _ => r == v
  }

  /** A field keeps its key, and its value unless that is user text. */
  ghost predicate FieldMasked(f: Field, g: Field)
    decreases f, 1
  {
    g.key == f.key &&
    if f.value.Str? then g.value == f.value || (f.key in REDACT_KEYS && g.value == Str(MASK))
    else OnlyMasked(f.value, g.value)
  }

  /** A string keeps its text unless it follows a secret flag, or gives one a value. */
  ghost predicate ItemMasked(x: Json, out: seq<Json>, i: nat)
    requires i < |out|
    decreases x, 1
  {
    if x.Str? then
      || out[i] == x
      || (i > 0 && IsSecretFlag(out[i - 1]) && out[i] == Str(MASK))
      || exists f :: f in SECRET_FLAGS && f + "=" <= x.s && out[i] == Str(f + "=" + MASK)
    else OnlyMasked(x, out[i])
  }

  lemma {:induction false} RedactedIsOnlyMasked(v: Json)
    ensures OnlyMasked(v, Redact(v))
  {
    match v
    case Obj(fields) =>
      forall i | 0 <= i < |fields|
        ensures FieldMasked(fields[i], RedactFields(fields)[i])
      {
        FieldByField(fields, i);
        RedactedIsOnlyMasked(fields[i].value);
      }
    case Arr(items) =>
      forall i | 0 <= i < |items|
        ensures ItemMasked(items[i], RedactItems(items, false), i)
      {
        ItemsStayInKind(items, false, i);
        if items[i].Str? {
          ItemByItem(items, false, i);
        } else {
          RedactedIsOnlyMasked(items[i]);
        }
      }
    case _ =>
  }

  lemma {:induction false} OnlyOneIsClean(v: Json, r: Json)
    requires OnlyMasked(v, r) && Clean(r)
    ensures r == Redact(v)
    decreases v, 0
  {
    match v
    case Obj(fields) =>
      forall i | 0 <= i < |fields|
        ensures r.fields[i] == RedactFields(fields)[i]
      {
        assert FieldMasked(fields[i], r.fields[i]) && CleanField(r.fields[i]);
        FieldByField(fields, i);
        if !fields[i].value.Str? {
          OnlyOneIsClean(fields[i].value, r.fields[i].value);
        }
      }
    case Arr(items) =>
      forall i | 0 <= i < |items|
        ensures r.items[i] == RedactItems(items, false)[i]
      {
        OnlyItemIsClean(v, r, i);
      }
    case _ =>
  }

  lemma {:induction false} OnlyItemIsClean(v: Json, r: Json, i: nat)
    requires v.Arr? && OnlyMasked(v, r) && Clean(r) && i < |v.items|
    ensures r.items[i] == RedactItems(v.items, false)[i]
    decreases v, 0, i
  {
    var x := v.items[i];
    assert ItemMasked(x, r.items, i) && Clean(r.items[i]) && CleanItem(r.items, i);
    ItemsStayInKind(v.items, false, i);
    if x.Str? {
      ItemByItem(v.items, false, i);
      if i > 0 {
        OnlyItemIsClean(v, r, i - 1);
      }
      OnlyStringIsClean(x.s, r.items, i);
    } else {
      OnlyOneIsClean(x, r.items[i]);
    }
  }

  lemma OnlyStringIsClean(s: string, out: seq<Json>, i: nat)
    requires i < |out| && ItemMasked(Str(s), out, i) && CleanItem(out, i)
    ensures out[i] == if i > 0 && IsSecretFlag(out[i - 1]) then Str(MASK) else Str(MaskFlagValue(s))
  {
    if !(i > 0 && IsSecretFlag(out[i - 1])) {
      if out[i] == Str(s) {
        FlagValueIsMasked(s, "");
      } else {
        var f :| f in SECRET_FLAGS && f + "=" <= s && out[i] == Str(f + "=" + MASK);
        FlagValueIsMasked(s, f);
      }
    }
  }

  /** Redaction masks all it has to, and nothing else: it is the one clean value that is only masked. */
  lemma RedactMasksJustThat(v: Json, r: Json)
    ensures r == Redact(v) <==> OnlyMasked(v, r) && Clean(r)
  {
    RedactedIsOnlyMasked(v);
    RedactedIsClean(v);
    if OnlyMasked(v, r) && Clean(r) {
      OnlyOneIsClean(v, r);
    }
  }

  // ---------------------------------------------------------------- key paths

  /** Every key path in `v`, which sits at `at`; the elements of an array share one path. */
  function Walk(v: Json, at: string): set<string> {
    match v
    case Obj(fields) => (if at == "" then {} else {at}) + WalkFields(fields, at)
    case Arr(items) => {at + "[]"} + WalkItems(items, at + "[]")
    case _ => {at}
  }

  function WalkFields(fields: seq<Field>, at: string): set<string> {
    if fields == [] then {}
    else Walk(fields[0].value, if at == "" then fields[0].key else at + "." + fields[0].key) + WalkFields(fields[1..], at)
  }

  function WalkItems(items: seq<Json>, at: string): set<string> {
    if items == [] then {} else Walk(items[0], at) + WalkItems(items[1..], at)
  }

  function KeyPaths(v: Json): set<string> {
    Walk(v, "")
  }

  lemma {:induction false} WalkStays(v: Json, at: string)
    ensures Walk(Redact(v), at) == Walk(v, at)
    decreases v, 1
  {
    match v
    case Obj(fields) => WalkFieldsStay(fields, at);
    case Arr(items) => WalkItemsStay(items, false, at + "[]");
    case _ =>
  }

  lemma {:induction false} WalkFieldsStay(fields: seq<Field>, at: string)
    ensures WalkFields(RedactFields(fields), at) == WalkFields(fields, at)
    decreases fields, 0
  {
    if fields != [] {
      WalkStays(fields[0].value, if at == "" then fields[0].key else at + "." + fields[0].key);
      WalkFieldsStay(fields[1..], at);
    }
  }

  lemma {:induction false} WalkItemsStay(items: seq<Json>, maskNext: bool, at: string)
    ensures WalkItems(RedactItems(items, maskNext), at) == WalkItems(items, at)
    decreases items, 0
  {
    if items != [] {
      WalkStays(items[0], at);
      WalkItemsStay(items[1..], MasksNext(items[0], maskNext), at);
    }
  }

  /** Key paths gained and lost since the baseline. */
  datatype Drift = Drift(added: set<string>, removed: set<string>)

  function ShapeDrift(current: Json, baseline: Json): Drift {
    Drift(KeyPaths(current) - KeyPaths(baseline), KeyPaths(baseline) - KeyPaths(current))
  }

  /** The drift verdict does not depend on whether either side was redacted. */
  lemma RedactionHidesNoDrift(current: Json, baseline: Json)
    ensures KeyPaths(Redact(current)) == KeyPaths(current)
    ensures ShapeDrift(Redact(current), baseline) == ShapeDrift(current, baseline)
    ensures ShapeDrift(current, Redact(baseline)) == ShapeDrift(current, baseline)
  {
    WalkStays(current, "");
    WalkStays(baseline, "");
  }

  // ---------------------------------------------------------------- which paths there are

  /** One step down: to the value of a key, or to an element. */
  datatype Step = Key(key: string) | Element

  /** `steps` lead from `v` to `x`. */
  ghost predicate Leads(v: Json, steps: seq<Step>, x: Json)
    decreases |steps|
  {
    if |steps| == 0 then v == x
    else exists y :: IsChild(v, steps[0], y) && Leads(y, steps[1..], x)
  }

  ghost predicate IsChild(v: Json, step: Step, y: Json) {
    match step
    case Key(key) => v.Obj? && Field(key, y) in v.fields
    case Element => v.Arr? && y in v.items
  }

  /** Keys with dots between them, and `[]` for every array gone into. */
  function Down(at: string, step: Step): string {
    match step
    case Key(key) => if at == "" then key else at + "." + key
    case Element => at + "[]"
  }

  function PathOf(at: string, steps: seq<Step>): string
    decreases |steps|
  {
    if |steps| == 0 then at else PathOf(Down(at, steps[0]), steps[1..])
  }

  /** A value is listed under its path, an array with its `[]`; the whole document, if an object, is not. */
  ghost predicate IsSpot(v: Json, at: string, steps: seq<Step>, x: Json, p: string) {
    && Leads(v, steps, x)
    && p == PathOf(at, steps) + (if x.Arr? then "[]" else "")
    && (x.Obj? ==> p != "")
  }

  lemma SpotBelow(v: Json, at: string, step: Step, y: Json, steps: seq<Step>, x: Json, p: string)
    requires IsChild(v, step, y) && IsSpot(y, Down(at, step), steps, x, p)
    ensures IsSpot(v, at, [step] + steps, x, p)
  {
    assert ([step] + steps)[1..] == steps;
  }

  lemma {:induction false} WalkedIsSpot(v: Json, at: string, p: string) returns (steps: seq<Step>, x: Json)
    requires p in Walk(v, at)
    ensures IsSpot(v, at, steps, x, p)
    decreases v, 1
  {
    if v.Obj? && !(at != "" && p == at) {
      var key, y;
      key, y, steps, x := WalkedField(v.fields, at, p);
      SpotBelow(v, at, Key(key), y, steps, x, p);
      steps := [Key(key)] + steps;
    } else if v.Arr? && p != at + "[]" {
      var y;
      y, steps, x := WalkedItem(v.items, at + "[]", p);
      SpotBelow(v, at, Element, y, steps, x, p);
      steps := [Element] + steps;
    } else {
      steps, x := [], v;
      assert at + "" == at;
    }
  }

  lemma {:induction false} WalkedField(fields: seq<Field>, at: string, p: string)
      returns (key: string, y: Json, steps: seq<Step>, x: Json)
    requires p in WalkFields(fields, at)
    ensures Field(key, y) in fields && IsSpot(y, Down(at, Key(key)), steps, x, p)
    decreases fields, 0
  {
    var f := fields[0];
    if p in Walk(f.value, Down(at, Key(f.key))) {
      key, y := f.key, f.value;
      steps, x := WalkedIsSpot(f.value, Down(at, Key(f.key)), p);
    } else {
      key, y, steps, x := WalkedField(fields[1..], at, p);
    }
  }

  lemma {:induction false} WalkedItem(items: seq<Json>, at: string, p: string)
      returns (y: Json, steps: seq<Step>, x: Json)
    requires p in WalkItems(items, at)
    ensures y in items && IsSpot(y, at, steps, x, p)
    decreases items, 0
  {
    if p in Walk(items[0], at) {
      y := items[0];
      steps, x := WalkedIsSpot(items[0], at, p);
    } else {
      y, steps, x := WalkedItem(items[1..], at, p);
    }
  }

  lemma {:induction false} FieldIsWalked(fields: seq<Field>, at: string, key: string, y: Json)
    requires Field(key, y) in fields
    ensures Walk(y, Down(at, Key(key))) <= WalkFields(fields, at)
  {
    if fields[0] != Field(key, y) {
      FieldIsWalked(fields[1..], at, key, y);
    }
  }

  lemma {:induction false} ItemIsWalked(items: seq<Json>, at: string, y: Json)
    requires y in items
    ensures Walk(y, at) <= WalkItems(items, at)
  {
    if items[0] != y {
      ItemIsWalked(items[1..], at, y);
    }
  }

  lemma ChildIsWalked(v: Json, at: string, step: Step, y: Json)
    requires IsChild(v, step, y)
    ensures Walk(y, Down(at, step)) <= Walk(v, at)
  {
    match step
    case Key(key) => FieldIsWalked(v.fields, at, key, y);
    case Element => ItemIsWalked(v.items, at + "[]", y);
  }

  lemma {:induction false} SpotIsWalked(v: Json, at: string, steps: seq<Step>, x: Json, p: string)
    requires IsSpot(v, at, steps, x, p)
    ensures p in Walk(v, at)
    decreases |steps|
  {
    if |steps| == 0 {
      assert at + "" == at;
    } else {
      var y :| IsChild(v, steps[0], y) && Leads(y, steps[1..], x);
      SpotIsWalked(y, Down(at, steps[0]), steps[1..], x, p);
      ChildIsWalked(v, at, steps[0], y);
    }
  }

  /** The key paths of a document are the paths of all the values in it, at any depth. */
  lemma KeyPathsAreSpots(v: Json, p: string)
    ensures p in KeyPaths(v) <==> exists steps, x :: IsSpot(v, "", steps, x, p)
  {
    if p in KeyPaths(v) {
      var steps, x := WalkedIsSpot(v, "", p);
    }
    if steps, x :| IsSpot(v, "", steps, x, p) {
      SpotIsWalked(v, "", steps, x, p);
    }
  }

  /** Added is what only the current document has, removed what only the baseline has. */
  lemma DriftMeans(current: Json, baseline: Json, p: string)
    ensures
      var now, before := (exists steps, x :: IsSpot(current, "", steps, x, p)), (exists steps, x :: IsSpot(baseline, "", steps, x, p));
      && (p in ShapeDrift(current, baseline).added <==> now && !before)
      && (p in ShapeDrift(current, baseline).removed <==> before && !now)
    ensures ShapeDrift(current, baseline) == Drift({}, {}) <==> KeyPaths(current) == KeyPaths(baseline)
  {
    KeyPathsAreSpots(current, p);
    KeyPathsAreSpots(baseline, p);
    var d, now, before := ShapeDrift(current, baseline), KeyPaths(current), KeyPaths(baseline);
    if d == Drift({}, {}) {
      assert forall q :: q in now ==> q in before by {
        assert forall q :: q in now && q !in before ==> q in d.added;
      }
      assert forall q :: q in before ==> q in now by {
        assert forall q :: q in before && q !in now ==> q in d.removed;
      }
    }
  }
}
