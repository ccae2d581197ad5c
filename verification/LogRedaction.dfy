/** `Redactor::redact` (src/auth.rs): known secrets replaced one after the other in a log line. */
module LogRedaction {
  import opened Prelude

  /** The redactor never holds an empty secret. */
  type Secret = p: string | |p| > 0 witness "-"

  const MASK := "<redacted>"

  predicate OccursAt(s: string, p: string, i: nat) {
    i + |p| <= |s| && s[i..i + |p|] == p
  }

  ghost predicate Contains(s: string, p: string) {
    exists i: nat :: OccursAt(s, p, i)
  }

  /** The leftmost occurrence at or after `from`. */
  function Find(s: string, p: string, from: nat): (r: Option<nat>)
    requires from <= |s|
    ensures r.Some? ==> from <= r.value && OccursAt(s, p, r.value)
    ensures forall i :: from <= i < (if r.Some? then r.value else |s| + 1) ==> !OccursAt(s, p, i)
    decreases |s| - from
  {
    if OccursAt(s, p, from) then Some(from)
    else if from == |s| then None
    else Find(s, p, from + 1)
  }

  /** `str::replace`: leftmost occurrences that do not overlap. */
  function Replace(s: string, p: Secret, mask: string): string
    decreases |s|
  {
    var at := Find(s, p, 0);
    if at.None? then s
    else s[..at.value] + mask + Replace(s[at.value + |p|..], p, mask)
  }

  /** The chain of replacements, first secret first. */
  function RedactSecrets(secrets: seq<Secret>, line: string): string
  {
    if secrets == [] then line
    else
      var n := |secrets| - 1;
      Replace(RedactSecrets(secrets[..n], line), secrets[n], MASK)
  }

  /** Empty secrets are dropped. */
  function NonEmpty(secrets: seq<string>): (r: seq<Secret>)
    ensures forall p: string :: p in r <==> p in secrets && p != ""
  {
    if secrets == [] then []
    else (if secrets[0] == "" then [] else [secrets[0]]) + NonEmpty(secrets[1..])
  }

  class Redactor {
    const secrets: seq<Secret>

    constructor (secrets: seq<string>)
      ensures this.secrets == NonEmpty(secrets)
    {
      this.secrets := NonEmpty(secrets);
    }

    method Redact(line: string) returns (out: string)
      ensures out == RedactSecrets(secrets, line)
    {
      out := line;
      for n := 0 to |secrets|
        invariant out == RedactSecrets(secrets[..n], line)
      {
        assert secrets[..n + 1][..n] == secrets[..n];
        out := Replace(out, secrets[n], MASK);
      }
      assert secrets[..|secrets|] == secrets;
    }
  }

  // ---------------------------------------------------------------- what is kept

  /** The parts with `sep` between any two. */
  function Joined(parts: seq<string>, sep: string): string
    requires |parts| > 0
  {
    if |parts| == 1 then parts[0] else parts[0] + sep + Joined(parts[1..], sep)
  }

  /** `s` cut at the leftmost `p`, then at the leftmost one after it, and so on, to the last. */
  ghost predicate IsCut(parts: seq<string>, s: string, p: Secret) {
    && |parts| > 0 && s == Joined(parts, p)
    && (if |parts| == 1 then !Contains(s, p) else OccursFirst(s, p, |parts[0]|) && IsCut(parts[1..], s[|parts[0]| + |p|..], p))
  }

  ghost predicate OccursFirst(s: string, p: string, at: nat) {
    OccursAt(s, p, at) && forall i: nat :: i < at ==> !OccursAt(s, p, i)
  }

  lemma JoinedWith(first: string, rest: seq<string>, sep: string)
    requires |rest| > 0
    ensures Joined([first] + rest, sep) == first + sep + Joined(rest, sep)
  {
    assert ([first] + rest)[1..] == rest;
  }

  lemma FoundIsFirst(s: string, p: Secret)
    requires Find(s, p, 0).Some?
    ensures OccursFirst(s, p, Find(s, p, 0).value)
    ensures var k := Find(s, p, 0).value; s == s[..k] + p + s[k + |p|..]
  {
  }

  lemma CutOn(s: string, p: Secret, k: nat, rest: seq<string>)
    requires OccursFirst(s, p, k) && IsCut(rest, s[k + |p|..], p) && s == s[..k] + p + s[k + |p|..]
    ensures IsCut([s[..k]] + rest, s, p)
  {
    JoinedWith(s[..k], rest, p);
    var parts := [s[..k]] + rest;
    assert parts[1..] == rest && parts[0] == s[..k];
  }

  /** Between the masks every part of the line is as it was: only the secret's occurrences are exchanged. */
  lemma {:induction false} OnlySecretsGo(s: string, p: Secret, mask: string) returns (parts: seq<string>)
    ensures IsCut(parts, s, p) && Replace(s, p, mask) == Joined(parts, mask)
    decreases |s|
  {
    var at := Find(s, p, 0);
    if at.None? {
      assert !Contains(s, p);
      parts := [s];
    } else {
      FoundIsFirst(s, p);
      var rest := OnlySecretsGo(s[at.value + |p|..], p, mask);
      CutOn(s, p, at.value, rest);
      JoinedWith(s[..at.value], rest, mask);
      parts := [s[..at.value]] + rest;
    }
  }

  /** There is only one way to cut a line so, so the parts, and the result, are determined. */
  lemma {:induction false} CutIsUnique(a: seq<string>, b: seq<string>, s: string, p: Secret)
    requires IsCut(a, s, p) && IsCut(b, s, p)
    ensures a == b
    decreases |a|
  {
    if |a| == 1 || |b| == 1 {
      assert a == [s] && b == [s];
    } else {
      FirstIsUnique(s, p, |a[0]|, |b[0]|);
      CutIsUnique(a[1..], b[1..], s[|a[0]| + |p|..], p);
      CutFirst(a, s, p);
      CutFirst(b, s, p);
      assert a == [a[0]] + a[1..] && b == [b[0]] + b[1..];
    }
  }

  lemma FirstIsUnique(s: string, p: string, i: nat, j: nat)
    requires OccursFirst(s, p, i) && OccursFirst(s, p, j)
    ensures i == j
  {
  }

  lemma CutFirst(parts: seq<string>, s: string, p: Secret)
    requires IsCut(parts, s, p) && |parts| > 1
    ensures parts[0] == s[..|parts[0]|]
  {
  }

  /** A part holds no secret: the cut would have been there. */
  lemma {:induction false} PartsAreClean(parts: seq<string>, s: string, p: Secret, k: nat)
    requires IsCut(parts, s, p) && k < |parts|
    ensures !Contains(parts[k], p)
    decreases |parts|
  {
    if k > 0 {
      PartsAreClean(parts[1..], s[|parts[0]| + |p|..], p, k - 1);
    } else if |parts| > 1 {
      CutFirst(parts, s, p);
      forall i: nat
        ensures !OccursAt(parts[0], p, i)
      {
        if i + |p| <= |parts[0]| {
          assert parts[0][i..i + |p|] == s[i..i + |p|];
          assert i < |parts[0]| && !OccursAt(s, p, i);
        }
      }
    }
  }

  /** The chain is one replacement after the other, the first secret first. */
  lemma {:induction false} ChainInOrder(a: seq<Secret>, b: seq<Secret>, line: string)
    ensures RedactSecrets(a + b, line) == RedactSecrets(b, RedactSecrets(a, line))
  {
    if b == [] {
      assert a + b == a;
    } else {
      var n := |b| - 1;
      assert (a + b)[..|a| + n] == a + b[..n];
      ChainInOrder(a, b[..n], line);
    }
  }

  /** The secrets kept are in the order given. */
  lemma {:induction false} NonEmptyKeepsOrder(a: seq<string>, b: seq<string>)
    ensures NonEmpty(a + b) == NonEmpty(a) + NonEmpty(b)
    ensures forall p: string :: p != "" ==> NonEmpty([p]) == [p]
  {
    forall p: string | p != ""
      ensures NonEmpty([p]) == [p]
    {
      assert [p][1..] == [];
      assert NonEmpty([p]) == [p] + NonEmpty([]);
    }
    if a == [] {
      assert a + b == b;
    } else {
      assert (a + b)[1..] == a[1..] + b;
      NonEmptyKeepsOrder(a[1..], b);
    }
  }

  /** The one occurrence of any secret in `a + p + b` is `p` where it stands, and none is in the result. */
  ghost predicate StandsAlone(secrets: seq<Secret>, a: string, p: Secret, b: string) {
    && (forall q: Secret, i: nat :: q in secrets && OccursAt(a + p + b, q, i) ==> q == p && i == |a|)
    && (forall q: Secret :: q in secrets ==> !Contains(a + MASK + b, q))
  }

  lemma ReplaceTheOne(a: string, p: Secret, b: string)
    requires forall i: nat :: OccursAt(a + p + b, p, i) ==> i == |a|
    ensures Replace(a + p + b, p, MASK) == a + MASK + b
  {
    var s := a + p + b;
    OccursBetween(a, p, b);
    assert Find(s, p, 0) == Some(|a|);
    assert s[..|a|] == a && s[|a| + |p|..] == b;
    forall i: nat
      ensures !OccursAt(b, p, i)
    {
      if i + |p| <= |b| {
        SliceOfSlice(s, |a| + |p|, |s|, i, i + |p|);
        assert b == s[|a| + |p|..|s|];
        assert !OccursAt(s, p, |a| + |p| + i);
      }
    }
    assert Find(b, p, 0).None?;
  }

  lemma AbsentStays(s: string, q: Secret)
    requires !Contains(s, q)
    ensures Replace(s, q, MASK) == s
  {
    assert Find(s, q, 0).None?;
  }

  lemma NothingElseThere(secrets: seq<Secret>, a: string, p: Secret, b: string, q: Secret)
    requires StandsAlone(secrets, a, p, b) && q in secrets && q != p
    ensures !Contains(a + p + b, q) && !Contains(a + MASK + b, q)
  {
  }

  lemma {:induction false} ChainSpares(secrets: seq<Secret>, a: string, p: Secret, b: string)
    requires StandsAlone(secrets, a, p, b)
    ensures RedactSecrets(secrets, a + p + b) == if p in secrets then a + MASK + b else a + p + b
  {
    if secrets != [] {
      var n := |secrets| - 1;
      var q, before := secrets[n], RedactSecrets(secrets[..n], a + p + b);
      assert secrets == secrets[..n] + [q];
      ChainSpares(secrets[..n], a, p, b);
      if q != p {
        NothingElseThere(secrets, a, p, b, q);
        AbsentStays(before, q);
      } else if p in secrets[..n] {
        AbsentStays(before, q);
      } else {
        ReplaceTheOne(a, p, b);
      }
    }
  }

  /** Around a secret that stands alone the line keeps every character. */
  lemma TheRestOfTheLineStays(secrets: seq<Secret>, a: string, p: Secret, b: string)
    requires p in secrets && StandsAlone(secrets, a, p, b)
    ensures RedactSecrets(secrets, a + p + b) == a + MASK + b
  {
    ChainSpares(secrets, a, p, b);
  }

  // ---------------------------------------------------------------- masking

  /** `t` is `s` with some non-overlapping segments replaced by the mask. */
  ghost predicate Masks(s: string, t: string)
    decreases |s|, |t|
  {
    || t == s
    || exists keep: nat, cut: nat, tail {:trigger Masked(s, t, keep, cut, tail)} ::
        Masked(s, t, keep, cut, tail) && Masks(s[keep + cut..], tail)
  }

  /** The first segment replaced is `s[keep..keep + cut]`; `tail` is what follows the mask in `t`. */
  predicate Masked(s: string, t: string, keep: nat, cut: nat, tail: string) {
    cut > 0 && keep + cut <= |s| && t == s[..keep] + MASK + tail
  }

  /** The last `k` characters of `a` are the first of `b`. */
  predicate Overlap(a: string, b: string, k: nat)
    requires k <= |a| && k <= |b|
  {
    a[|a| - k..] == b[..k]
  }

  /** Next to a mask nothing of the secret can be part of the mask: neither's end is the other's beginning. */
  ghost predicate Separate(p: string) {
    && !Contains(p, MASK)
    && forall k {:trigger Overlap(p, MASK, k)} {:trigger Overlap(MASK, p, k)} ::
      0 < k < |p| && k < |MASK| ==> !Overlap(p, MASK, k) && !Overlap(MASK, p, k)
  }

  /** And no secret is a piece of the mask. */
  ghost predicate Maskable(p: string) {
    Separate(p) && !Contains(MASK, p)
  }

  predicate Agree(t: string, lo: nat, s: string, from: nat, k: nat) {
    lo + k < |t| && from + k < |s| && t[lo + k] == s[from + k]
  }

  lemma SameSlice(t: string, s: string, lo: nat, from: nat, n: nat)
    requires lo + n <= |t| && from + n <= |s|
    requires forall k: nat :: k < n ==> Agree(t, lo, s, from, k)
    ensures t[lo..lo + n] == s[from..from + n]
  {
    var a, b := t[lo..lo + n], s[from..from + n];
    forall k: nat | k < n
      ensures a[k] == b[k]
    {
      assert Agree(t, lo, s, from, k);
    }
  }

  lemma OccurrenceAt(t: string, p: string, i: nat, k: nat)
    requires OccursAt(t, p, i) && k < |p|
    ensures t[i + k] == p[k]
  {
    assert t[i..i + |p|][k] == t[i + k];
  }

  /** `p` sits in `t` at `i`; a piece of `t` and a piece of `p` that cover the same places are the same. */
  lemma CommonPiece(t: string, p: string, i: nat, m: string, a: nat, lo: nat, n: nat)
    requires OccursAt(t, p, i) && OccursAt(t, m, a)
    requires i <= lo && lo + n <= i + |p| && a <= lo && lo + n <= a + |m|
    ensures p[lo - i..lo - i + n] == m[lo - a..lo - a + n]
  {
    var x: nat, y: nat := lo - i, lo - a;
    forall k: nat | k < n
      ensures Agree(p, x, m, y, k)
    {
      OccurrenceAt(t, p, i, lo - i + k);
      OccurrenceAt(t, m, a, lo - a + k);
    }
    SameSlice(p, m, x, y, n);
  }

  lemma AroundIsHeld(t: string, p: string, i: nat, a: nat)
    requires OccursAt(t, p, i) && OccursAt(t, MASK, a) && i <= a && a + |MASK| <= i + |p|
    ensures Contains(p, MASK)
  {
    CommonPiece(t, p, i, MASK, a, a, |MASK|);
    assert OccursAt(p, MASK, a - i);
  }

  lemma AcrossTheStart(t: string, p: string, i: nat, a: nat)
    requires OccursAt(t, p, i) && OccursAt(t, MASK, a) && i < a < i + |p| < a + |MASK|
    ensures Overlap(p, MASK, i + |p| - a)
  {
    CommonPiece(t, p, i, MASK, a, a, i + |p| - a);
  }

  lemma AcrossTheEnd(t: string, p: string, i: nat, a: nat)
    requires OccursAt(t, p, i) && OccursAt(t, MASK, a) && a < i < a + |MASK| < i + |p|
    ensures Overlap(MASK, p, a + |MASK| - i)
  {
    CommonPiece(t, p, i, MASK, a, i, a + |MASK| - i);
  }

  lemma WithinIsPiece(t: string, p: string, i: nat, a: nat)
    requires OccursAt(t, p, i) && OccursAt(t, MASK, a) && a <= i && i + |p| <= a + |MASK|
    ensures Contains(MASK, p)
  {
    CommonPiece(t, p, i, MASK, a, i, |p|);
    assert OccursAt(MASK, p, i - a);
  }

  /** An occurrence of a separate text lies left of the mask, inside it, or right of it. */
  lemma OccurrenceOfSeparate(t: string, p: string, i: nat, a: nat)
    requires |p| > 0 && Separate(p) && OccursAt(t, p, i) && OccursAt(t, MASK, a)
    ensures i + |p| <= a || i >= a + |MASK| || Contains(MASK, p)
  {
    if i <= a && a + |MASK| <= i + |p| {
      AroundIsHeld(t, p, i, a);
    } else if i < a < i + |p| {
      AcrossTheStart(t, p, i, a);
    } else if a < i < a + |MASK| < i + |p| {
      AcrossTheEnd(t, p, i, a);
    } else if a <= i < a + |MASK| {
      WithinIsPiece(t, p, i, a);
    }
  }

  lemma OccurrenceSides(left: string, right: string, p: string, i: nat)
    requires |p| > 0 && Maskable(p) && OccursAt(left + MASK + right, p, i)
    ensures OccursAt(left, p, i) || (i >= |left| + |MASK| && OccursAt(right, p, i - |left| - |MASK|))
  {
    var t, b := left + MASK + right, |left| + |MASK|;
    MaskIsThere(left, right);
    OccurrenceOfSeparate(t, p, i, |left|);
    if i + |p| <= |left| {
      assert t[..|left|] == left;
      SliceOfSlice(t, 0, |left|, i, i + |p|);
    } else {
      assert t[b..|t|] == right;
      SliceOfSlice(t, b, |t|, i - b, i - b + |p|);
    }
  }

  /** Without angle brackets, only a piece of "redacted" cannot be masked. */
  lemma UnbracketedIsMaskable(p: string)
    requires |p| > 0 && '<' !in p && '>' !in p && !Contains("redacted", p)
    ensures Maskable(p)
  {
    assert MASK[0] == '<' && MASK[9] == '>' && MASK[1..9] == "redacted";
    forall k | 0 < k < |p| && k < |MASK|
      ensures !Overlap(p, MASK, k) && !Overlap(MASK, p, k)
    {
      assert MASK[..k][0] == '<' && MASK[|MASK| - k..][k - 1] == '>';
      assert p[|p| - k..][0] in p && p[..k][k - 1] in p;
    }
    forall i: nat
      ensures !OccursAt(p, MASK, i)
    {
      if i + |MASK| <= |p| {
        assert p[i..i + |MASK|][0] == p[i];
      }
    }
    if Contains(MASK, p) {
      var i: nat :| OccursAt(MASK, p, i);
      UnbracketedInMask(p, i);
    }
  }

  lemma UnbracketedInMask(p: string, i: nat)
    requires |p| > 0 && '<' !in p && '>' !in p && OccursAt(MASK, p, i)
    ensures Contains("redacted", p)
  {
    var inner := "redacted";
    OccurrenceAt(MASK, p, i, 0);
    OccurrenceAt(MASK, p, i, |p| - 1);
    assert MASK[0] == '<' && MASK[9] == '>';
    assert i > 0 && i + |p| <= 9;
    assert MASK[1..9] == inner;
    SliceOfSlice(MASK, 1, 9, i - 1, i - 1 + |p|);
    assert OccursAt(inner, p, i - 1);
  }

  lemma SliceOfSlice(s: string, lo: nat, hi: nat, a: nat, b: nat)
    requires lo <= hi <= |s| && a <= b <= hi - lo
    ensures s[lo..hi][a..b] == s[lo + a..lo + b]
  {
    var x, y := s[lo..hi][a..b], s[lo + a..lo + b];
    assert forall k :: 0 <= k < b - a ==> x[k] == s[lo + a + k] && y[k] == s[lo + a + k];
  }

  lemma ContainsPart(s: string, lo: nat, hi: nat, p: string)
    requires lo <= hi <= |s| && Contains(s[lo..hi], p)
    ensures Contains(s, p)
  {
    var i: nat :| OccursAt(s[lo..hi], p, i);
    SliceOfSlice(s, lo, hi, i, i + |p|);
    assert OccursAt(s, p, lo + i);
  }

  lemma NoneAcrossMask(left: string, right: string, p: Secret)
    requires Maskable(p) && !Contains(left, p) && !Contains(right, p)
    ensures !Contains(left + MASK + right, p)
  {
    forall i: nat
      ensures !OccursAt(left + MASK + right, p, i)
    {
      if OccursAt(left + MASK + right, p, i) {
        OccurrenceSides(left, right, p, i);
      }
    }
  }

  lemma ContainsEnds(s: string, from: nat, to: nat, p: string)
    requires from <= to <= |s| && (Contains(s[..from], p) || Contains(s[to..], p))
    ensures Contains(s, p)
  {
    assert s[..from] == s[0..from] && s[to..] == s[to..|s|];
    if Contains(s[..from], p) {
      ContainsPart(s, 0, from, p);
    } else {
      ContainsPart(s, to, |s|, p);
    }
  }

  /** Masking never makes a secret appear, however the segments were chosen. */
  lemma {:induction false} MaskingCreatesNothing(s: string, t: string, p: string)
    requires Masks(s, t) && |p| > 0 && Maskable(p) && Contains(t, p)
    ensures Contains(s, p)
    decreases |s|
  {
    if t != s {
      var keep: nat, cut: nat, tail :| Masked(s, t, keep, cut, tail) && Masks(s[keep + cut..], tail);
      if Contains(tail, p) {
        MaskingCreatesNothing(s[keep + cut..], tail, p);
      } else if !Contains(s[..keep], p) {
        NoneAcrossMask(s[..keep], tail, p);
      }
      ContainsEnds(s, keep, keep + cut, p);
    }
  }

  lemma {:induction false} ReplaceMasks(s: string, p: Secret)
    ensures Masks(s, Replace(s, p, MASK))
    decreases |s|
  {
    var at := Find(s, p, 0);
    if at.Some? {
      var rest := s[at.value + |p|..];
      ReplaceMasks(rest, p);
      assert Masked(s, Replace(s, p, MASK), at.value, |p|, Replace(rest, p, MASK));
    }
  }

  lemma NoneBeforeFirst(s: string, p: Secret, k: nat)
    requires OccursFirst(s, p, k)
    ensures !Contains(s[..k], p)
  {
    forall i: nat
      ensures !OccursAt(s[..k], p, i)
    {
      if i + |p| <= k {
        assert s[..k][i..i + |p|] == s[i..i + |p|];
        assert !OccursAt(s, p, i);
      }
    }
  }

  /** A replaced secret is gone: the pieces between its occurrences and the mask do not hold it. */
  lemma {:induction false} ReplaceRemoves(s: string, p: Secret)
    requires Maskable(p)
    ensures !Contains(Replace(s, p, MASK), p)
    decreases |s|
  {
    var at := Find(s, p, 0);
    if at.Some? {
      var rest := s[at.value + |p|..];
      ReplaceRemoves(rest, p);
      FoundIsFirst(s, p);
      NoneBeforeFirst(s, p, at.value);
      NoneAcrossMask(s[..at.value], Replace(rest, p, MASK), p);
    }
  }

  // ---------------------------------------------------------------- the chain

  ghost predicate LeavesClean(secrets: seq<Secret>, line: string) {
    Clean(secrets, RedactSecrets(secrets, line))
  }

  ghost predicate Clean(secrets: seq<Secret>, s: string) {
    forall p: Secret :: p in secrets ==> !Contains(s, p)
  }

  /** Whatever their order and overlaps: after the chain no secret is left, nor made by a later pass. */
  lemma {:induction false} NoSecretSurvives(secrets: seq<Secret>, line: string)
    requires forall p: Secret :: p in secrets ==> Maskable(p)
    ensures Clean(secrets, RedactSecrets(secrets, line))
  {
    if secrets != [] {
      var n := |secrets| - 1;
      var before := RedactSecrets(secrets[..n], line);
      NoSecretSurvives(secrets[..n], line);
      ReplaceRemoves(before, secrets[n]);
      ReplaceMasks(before, secrets[n]);
      forall p: Secret | p in secrets
        ensures !Contains(RedactSecrets(secrets, line), p)
      {
        if p != secrets[n] {
          assert p in secrets[..n];
          if Contains(RedactSecrets(secrets, line), p) {
            MaskingCreatesNothing(before, RedactSecrets(secrets, line), p);
          }
        }
      }
    }
  }

  /**
   * The two credential patterns run after the chain; they, too, only replace segments by the mask, so
   * the whole of `redact` leaves no secret.
   */
  lemma NoSecretSurvivesThePatterns(secrets: seq<Secret>, line: string, bearer: string, query: string)
    requires forall p: Secret :: p in secrets ==> Maskable(p)
    requires Masks(RedactSecrets(secrets, line), bearer) && Masks(bearer, query)
    ensures Clean(secrets, query)
  {
    NoSecretSurvives(secrets, line);
    forall p: Secret | p in secrets
      ensures !Contains(query, p)
    {
      if Contains(query, p) {
        MaskingCreatesNothing(bearer, query, p);
        MaskingCreatesNothing(RedactSecrets(secrets, line), bearer, p);
      }
    }
  }

  lemma {:induction false} CleanIsFixed(secrets: seq<Secret>, s: string)
    requires Clean(secrets, s)
    ensures RedactSecrets(secrets, s) == s
  {
    if secrets != [] {
      var n := |secrets| - 1;
      CleanIsFixed(secrets[..n], s);
      assert secrets[n] in secrets;
      var at := Find(s, secrets[n], 0);
      assert at.None?;
    }
  }

  lemma ChainIsIdempotent(secrets: seq<Secret>, line: string)
    requires forall p: Secret :: p in secrets ==> Maskable(p)
    ensures RedactSecrets(secrets, RedactSecrets(secrets, line)) == RedactSecrets(secrets, line)
  {
    NoSecretSurvives(secrets, line);
    CleanIsFixed(secrets, RedactSecrets(secrets, line));
  }

  // ---------------------------------------------------------------- exactly when

  /** A mask that is in the text stays in it, whole or renewed. */
  lemma {:induction false} ReplaceKeepsMask(s: string, p: Secret)
    requires Contains(s, MASK) || Contains(s, p)
    ensures Contains(Replace(s, p, MASK), MASK)
    decreases |s|
  {
    var at := Find(s, p, 0);
    if at.Some? {
      var rest := Replace(s[at.value + |p|..], p, MASK);
      MaskIsThere(s[..at.value], rest);
    } else {
      assert !Contains(s, p);
    }
  }

  lemma MaskIsThere(left: string, right: string)
    ensures OccursAt(left + MASK + right, MASK, |left|)
  {
    var t := left + MASK + right;
    assert t[|left|..|left| + |MASK|] == MASK;
  }

  lemma {:induction false} ChainMakesMask(secrets: seq<Secret>, line: string)
    requires exists p: Secret :: p in secrets && Contains(line, p)
    ensures Contains(RedactSecrets(secrets, line), MASK)
  {
    var n := |secrets| - 1;
    var before := RedactSecrets(secrets[..n], line);
    if exists p: Secret :: p in secrets[..n] && Contains(line, p) {
      ChainMakesMask(secrets[..n], line);
    } else {
      CleanIsFixed(secrets[..n], line);
      assert before == line;
      var p: Secret :| p in secrets && Contains(line, p);
      assert p == secrets[n];
    }
    ReplaceKeepsMask(before, secrets[n]);
  }

  lemma ContainsThrough(s: string, m: string, p: string)
    requires Contains(s, m) && Contains(m, p)
    ensures Contains(s, p)
  {
    var i: nat :| OccursAt(s, m, i);
    ContainsPart(s, i, i + |m|, p);
  }

  /** A secret that is a piece of the mask is left in the line that is just the secret. */
  lemma PieceOfMaskSurvives(secrets: seq<Secret>, p: Secret)
    requires p in secrets && Contains(MASK, p)
    ensures !LeavesClean(secrets, p)
  {
    assert p[0..0 + |p|] == p;
    assert OccursAt(p, p, 0);
    ChainMakesMask(secrets, p);
    ContainsThrough(RedactSecrets(secrets, p), MASK, p);
  }

  /** For secrets that cannot overlap the mask: every line comes out clean iff none is a piece of the mask. */
  lemma CleanIffNoSecretInMask(secrets: seq<Secret>)
    requires forall p: Secret :: p in secrets ==> Separate(p)
    ensures (forall line: string :: LeavesClean(secrets, line)) <==>
            (forall p: Secret :: p in secrets ==> !Contains(MASK, p))
  {
    if forall p: Secret :: p in secrets ==> !Contains(MASK, p) {
      forall line: string
        ensures LeavesClean(secrets, line)
      {
        NoSecretSurvives(secrets, line);
      }
    } else {
      var p: Secret :| p in secrets && Contains(MASK, p);
      PieceOfMaskSurvives(secrets, p);
    }
  }

  lemma RedactOne(s: string, p: Secret)
    ensures RedactSecrets([p], s) == Replace(s, p, MASK)
  {
    assert [p][..0] == [];
    assert RedactSecrets([], s) == s;
  }

  lemma ReplaceFirst(left: string, p: Secret, right: string)
    requires Find(left + p + right, p, 0) == Some(|left|) && |right| < |p|
    ensures Replace(left + p + right, p, MASK) == left + MASK + right
  {
    var s := left + p + right;
    assert s[..|left|] == left && s[|left| + |p|..] == right;
    assert Find(right, p, 0).None?;
  }

  /** A secret that masking one occurrence puts together again is left in the line. */
  lemma SurvivesItsMask(left: string, p: Secret, right: string, i: nat)
    requires Find(left + p + right, p, 0) == Some(|left|) && |right| < |p|
    requires OccursAt(left + MASK + right, p, i)
    ensures !LeavesClean([p], left + p + right)
  {
    ReplaceFirst(left, p, right);
    RedactOne(left + p + right, p);
    assert p in [p];
  }

  lemma OccursBetween(a: string, p: string, b: string)
    ensures OccursAt(a + p + b, p, |a|)
  {
    assert (a + p + b)[|a|..|a| + |p|] == p;
  }

  /** A secret that begins with an end of the mask, `p == v + u`, survives in the line `p + u`. */
  lemma OverlapAfterSurvives(v: string, u: string, w: string)
    requires |v| > 0 && |u| > 0 && MASK == w + v
    ensures !LeavesClean([v + u], v + u + u)
  {
    var p: Secret := v + u;
    OccursBetween("", p, u);
    OccursBetween(w, p, "");
    assert "" + MASK + u == w + p + "";
    SurvivesItsMask("", p, u, |w|);
    assert "" + p + u == v + u + u;
  }

  /**
   * A secret that ends with a beginning of the mask, `p == u + v`, survives in the line `u + p`, unless
   * it is found earlier in that line.
   */
  lemma OverlapBeforeSurvives(u: string, v: string, w: string)
    requires |v| > 0 && |u| > 0 && MASK == v + w
    requires Find(u + (u + v) + "", u + v, 0) == Some(|u|)
    ensures !LeavesClean([u + v], u + (u + v) + "")
  {
    var p: Secret := u + v;
    OccursBetween("", p, w);
    SplitMask(u, v, w);
    SurvivesItsMask(u, p, "", 0);
  }

  lemma SplitMask(u: string, v: string, w: string)
    requires MASK == v + w
    ensures u + MASK + "" == "" + (u + v) + w
  {
  }
}
