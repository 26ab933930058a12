/** The SDK's redactor: repeated replacement of registered secrets, and when it leaves none behind. */
module Redaction {
  import opened Wrappers

  const MASK: string := "(redacted)"
  const MIN_LENGTH: nat := 4

  predicate At(t: string, i: nat, v: string) {
    i + |v| <= |t| && t[i..i + |v|] == v
  }

  predicate Contains(t: string, v: string) {
    exists i :: 0 <= i <= |t| && At(t, i, v)
  }

  /** `str.replace`: from left to right, without looking at what was put in. */
  function Replace(t: string, v: string): string
    requires v != []
  {
    if t == [] then []
    else if v <= t then MASK + Replace(t[|v|..], v)
    else [t[0]] + Replace(t[1..], v)
  }

  /** The values in turn. */
  function RedactAll(t: string, values: seq<string>): string
    requires NonEmpty(values)
  {
    if values == [] then t else Replace(RedactAll(t, values[..|values|-1]), values[|values|-1])
  }

  predicate NonEmpty(values: seq<string>) {
    forall k :: 0 <= k < |values| ==> values[k] != []
  }

  predicate LongestFirst(values: seq<string>) {
    forall j, k :: 0 <= j < k < |values| ==> |values[j]| >= |values[k]|
  }

  // ---------------------------------------------------------------- values that cannot meet the mask

  /** Placed d characters after the start of the mask (before it, when d is negative), the value overlaps the mask
      and agrees with it. */
  predicate Agrees(v: string, d: int) {
    && -|v| < d < |MASK|
    && forall k :: 0 <= k < |v| && 0 <= d + k < |MASK| ==> v[k] == MASK[d + k]
  }

  /** An occurrence of the value could overlap a mask. */
  predicate Touches(v: string) {
    exists d :: -|v| < d < |MASK| && Agrees(v, d)
  }

  lemma AgreeingValue(v: string, d: int)
    requires Agrees(v, d)
    ensures '(' in v || ')' in v || Contains("redacted", v)
  {
    var last := |MASK| - 1;
    if d <= 0 {
      assert v[-d] == MASK[d + -d];
    } else if d + |v| > last {
      assert v[last - d] == MASK[d + (last - d)];
    } else {
      assert MASK[1..9] == "redacted";
      assert forall k :: 0 <= k < |v| ==> v[k] == MASK[d + k] == "redacted"[d - 1 + k];
      assert At("redacted", d - 1, v);
    }
  }

  /** A value without parentheses that is no part of the word "redacted" cannot. */
  lemma PlainValuesDoNotTouch(v: string)
    requires '(' !in v && ')' !in v && !Contains("redacted", v)
    ensures !Touches(v)
  {
    if Touches(v) {
      var d :| -|v| < d < |MASK| && Agrees(v, d);
      AgreeingValue(v, d);
    }
  }

  /** The value begins s characters before a mask and is still going on there. */
  lemma TouchesAhead(w: string, s: nat, out: string)
    requires s < |w| && w[s..] <= out && MASK <= out
    ensures Touches(w)
  {
    var d: int := s;
    assert forall k {:trigger w[k]} :: s <= k < |w| ==> w[k] == w[s..][k - s] == out[k - s];
    assert Agrees(w, -d);
  }

  /** The value begins inside a mask. */
  lemma TouchesInside(w: string, i: nat, rest: string)
    requires w != [] && i < |MASK| && At(MASK + rest, i, w)
    ensures Touches(w)
  {
    var out := MASK + rest;
    assert forall k {:trigger w[k]} :: 0 <= k < |w| ==> w[k] == out[i..i + |w|][k] == out[i + k];
    assert Agrees(w, i);
  }

  /** The rest of a value that begins before a mask does not reach into it. */
  lemma {:induction false} PrefixStays(t: string, v: string, w: string, s: nat)
    requires v != [] && !Touches(w) && 0 < s <= |w| && w[s..] <= Replace(t, v)
    ensures w[s..] <= t
    decreases |t|
  {
    if s < |w| {
      if v <= t {
        TouchesAhead(w, s, Replace(t, v));
      } else {
        var out := Replace(t[1..], v);
        assert w[s+1..] == w[s..][1..] <= ([t[0]] + out)[1..] == out;
        PrefixStays(t[1..], v, w, s + 1);
        assert t == [t[0]] + t[1..] && w[s..] == [w[s]] + w[s+1..];
      }
    }
  }

  lemma AtShift(front: string, rest: string, i: nat, w: string)
    ensures At(front + rest, |front| + i, w) <==> At(rest, i, w)
  {
  }

  lemma AtStart(t: string, w: string)
    ensures At(t, 0, w) <==> w <= t
  {
  }

  /** What stands in the result behind the first mask comes from the rest of the text. */
  lemma AfterMask(t: string, v: string, w: string, i: nat)
    requires v != [] && v <= t && i >= |MASK| && At(Replace(t, v), i, w)
    ensures At(Replace(t[|v|..], v), i - |MASK|, w)
  {
    AtShift(MASK, Replace(t[|v|..], v), i - |MASK|, w);
  }

  lemma AfterFirst(t: string, v: string, w: string, i: nat)
    requires v != [] && t != [] && !(v <= t) && i > 0 && At(Replace(t, v), i, w)
    ensures At(Replace(t[1..], v), i - 1, w)
  {
    AtShift([t[0]], Replace(t[1..], v), i - 1, w);
  }

  lemma Further(t: string, n: nat, i: nat, part: string) returns (j: nat)
    requires n <= |t| && At(t[n..], i, part)
    ensures At(t, j, part)
  {
    j := n + i;
    AtShift(t[..n], t[n..], i, part);
    assert t == t[..n] + t[n..];
  }

  /** Replacing one value brings in no other, and takes away all of its own. */
  lemma {:induction false} ReplaceAddsNothing(t: string, v: string, w: string, i: nat) returns (j: nat)
    requires v != [] && w != [] && !Touches(w) && At(Replace(t, v), i, w)
    ensures w != v && At(t, j, w)
    decreases |t|
  {
    j := 0;
    if v <= t && i < |MASK| {
      TouchesInside(w, i, Replace(t[|v|..], v));
    } else if v <= t {
      AfterMask(t, v, w, i);
      j := ReplaceAddsNothing(t[|v|..], v, w, i - |MASK|);
      j := Further(t, |v|, j, w);
    } else if i == 0 {
      StartsBefore(t, v, w);
    } else {
      AfterFirst(t, v, w, i);
      j := ReplaceAddsNothing(t[1..], v, w, i - 1);
      j := Further(t, 1, j, w);
    }
  }

  lemma StartsBefore(t: string, v: string, w: string)
    requires v != [] && w != [] && !Touches(w) && t != [] && !(v <= t) && At(Replace(t, v), 0, w)
    ensures w != v && At(t, 0, w)
  {
    var rest := Replace(t[1..], v);
    var out := [t[0]] + rest;
    AtStart(out, w);
    AtStart(t, w);
    assert w[1..] <= out[1..] == rest;
    PrefixStays(t[1..], v, w, 1);
    assert t == [t[0]] + t[1..] && w == [w[0]] + w[1..];
  }

  /** Non-empty values, none of which can overlap a mask. */
  ghost predicate Plain(values: seq<string>) {
    NonEmpty(values) && forall v :: v in values ==> !Touches(v)
  }

  lemma {:induction false} RedactAddsNothing(t: string, values: seq<string>, w: string)
    requires NonEmpty(values) && w != [] && !Touches(w) && (!Contains(t, w) || w in values)
    ensures !Contains(RedactAll(t, values), w)
  {
    if values != [] {
      var front, v := values[..|values|-1], values[|values|-1];
      var before := RedactAll(t, front);
      if Contains(Replace(before, v), w) {
        var i :| 0 <= i <= |Replace(before, v)| && At(Replace(before, v), i, w);
        var j := ReplaceAddsNothing(before, v, w, i);
        assert w in values ==> w in front || w == v;
        RedactAddsNothing(t, front, w);
      }
    }
  }

  // ---------------------------------------------------------------- what the redactor promises

  /** No registered value that cannot meet the mask is left, for every text, however the values overlap each other and
      whatever the other values are. */
  lemma RedactionIsComplete(t: string, values: seq<string>, w: string)
    requires NonEmpty(values) && w in values && !Touches(w)
    ensures !Contains(RedactAll(t, values), w)
  {
    RedactAddsNothing(t, values, w);
  }

  lemma {:induction false} ReplaceAbsent(t: string, v: string)
    requires v != [] && !Contains(t, v)
    ensures Replace(t, v) == t
    decreases |t|
  {
    if t != [] {
      if v <= t { assert At(t, 0, v); }
      forall i | 0 <= i <= |t[1..]| && At(t[1..], i, v) ensures false {
        assert t[1..][i..i + |v|] == t[i+1..i + 1 + |v|];
        assert At(t, i + 1, v);
      }
      ReplaceAbsent(t[1..], v);
    }
  }

  lemma {:induction false} RedactAbsent(t: string, values: seq<string>)
    requires NonEmpty(values) && forall v :: v in values ==> !Contains(t, v)
    ensures RedactAll(t, values) == t
  {
    if values != [] {
      assert values[|values|-1] in values && forall x :: x in values[..|values|-1] ==> x in values;
      RedactAbsent(t, values[..|values|-1]);
      ReplaceAbsent(t, values[|values|-1]);
    }
  }

  /** Redacting twice is redacting once, also when the second time orders the values differently. */
  lemma RedactionIsIdempotent(t: string, values: seq<string>, again: seq<string>)
    requires Plain(values) && NonEmpty(again) && forall v :: v in again <==> v in values
    ensures RedactAll(RedactAll(t, values), again) == RedactAll(t, values)
  {
    forall v | v in again ensures !Contains(RedactAll(t, values), v) { RedactionIsComplete(t, values, v); }
    RedactAbsent(RedactAll(t, values), again);
  }

  // ---------------------------------------------------------------- one unit

  /** Where v begins nowhere, nothing is replaced. */
  lemma {:induction false} SkipText(m: string, q: string, v: string)
    requires v != [] && forall x :: 0 <= x < |m| ==> !(v <= m[x..] + q)
    ensures Replace(m + q, v) == m + Replace(q, v)
    decreases |m|
  {
    if m == [] {
      assert m + q == q;
    } else {
      assert m[0..] + q == m + q && (m + q)[1..] == m[1..] + q;
      forall x | 0 <= x < |m[1..]| ensures !(v <= m[1..][x..] + q) {
        assert m[1..][x..] == m[x+1..];
      }
      SkipText(m[1..], q, v);
      assert m == [m[0]] + m[1..];
    }
  }

  lemma SkipMask(q: string, v: string)
    requires v != [] && !Touches(v)
    ensures Replace(MASK + q, v) == MASK + Replace(q, v)
  {
    forall x | 0 <= x < |MASK| ensures !(v <= MASK[x..] + q) {
      assert MASK + q == MASK[..x] + (MASK[x..] + q);
      AtStart(MASK[x..] + q, v);
      AtShift(MASK[..x], MASK[x..] + q, 0, v);
      if At(MASK + q, x, v) { TouchesInside(v, x, q); }
    }
    SkipText(MASK, q, v);
  }

  /** v does not begin in p and end in a mask right behind p. */
  lemma NotAcross(p: string, q: string, v: string)
    requires !Touches(v) && v <= p + MASK + q
    ensures v <= p
  {
    var t := p + MASK + q;
    if |p| < |v| {
      assert v[|p|..] == t[|p|..|v|] <= t[|p|..] == MASK + q;
      TouchesAhead(v, |p|, MASK + q);
    } else {
      assert p[..|v|] == t[..|v|] == v;
    }
  }

  /** A mask separates: what stands before it and what stands after it are replaced on their own. */
  lemma {:induction false} ReplaceAroundMask(p: string, q: string, v: string)
    requires v != [] && !Touches(v)
    ensures Replace(p + MASK + q, v) == Replace(p, v) + MASK + Replace(q, v)
    decreases |p|
  {
    var t := p + MASK + q;
    if p == [] {
      SkipMask(q, v);
      assert t == MASK + q;
    } else if v <= p {
      assert t[|v|..] == p[|v|..] + MASK + q && v <= t;
      ReplaceAroundMask(p[|v|..], q, v);
      Regroup(MASK, Replace(p[|v|..], v), Replace(q, v));
    } else {
      if v <= t { NotAcross(p, q, v); }
      assert t[1..] == p[1..] + MASK + q && t[0] == p[0];
      ReplaceAroundMask(p[1..], q, v);
      Regroup([p[0]], Replace(p[1..], v), Replace(q, v));
    }
  }

  lemma Regroup(a: string, b: string, c: string)
    ensures a + (b + MASK + c) == (a + b) + MASK + c
  {
  }

  lemma {:induction false} RedactAroundMask(p: string, q: string, values: seq<string>)
    requires Plain(values)
    ensures RedactAll(p + MASK + q, values) == RedactAll(p, values) + MASK + RedactAll(q, values)
  {
    if values != [] {
      var front, v := values[..|values|-1], values[|values|-1];
      assert v in values && forall x :: x in front ==> x in values;
      RedactAroundMask(p, q, front);
      ReplaceAroundMask(RedactAll(p, front), RedactAll(q, front), v);
    }
  }

  /** The first place where v occurs in p + v + q is after p. */
  ghost predicate FirstAfter(p: string, v: string, q: string) {
    forall i :: 0 <= i < |p| ==> !At(p + v + q, i, v)
  }

  lemma FirstAfterTail(p: string, v: string, q: string)
    requires p != [] && FirstAfter(p, v, q)
    ensures FirstAfter(p[1..], v, q)
  {
    var t := p + v + q;
    assert t == [p[0]] + (p[1..] + v + q);
    forall i | 0 <= i < |p| - 1 ensures !At(p[1..] + v + q, i, v) {
      AtShift([p[0]], p[1..] + v + q, i, v);
      assert !At(t, i + 1, v);
    }
  }

  lemma ReplaceNow(v: string, q: string)
    requires v != []
    ensures Replace(v + q, v) == MASK + Replace(q, v)
  {
    assert (v + q)[|v|..] == q;
  }

  lemma ReplaceLater(p: string, v: string, q: string)
    requires v != [] && p != [] && FirstAfter(p, v, q)
    ensures Replace(p + v + q, v) == [p[0]] + Replace(p[1..] + v + q, v)
  {
    var t := p + v + q;
    assert !At(t, 0, v);
    AtStart(t, v);
    assert t[1..] == p[1..] + v + q && t[0] == p[0];
  }

  lemma {:induction false} ReplaceFirst(p: string, v: string, q: string)
    requires v != [] && FirstAfter(p, v, q)
    ensures Replace(p + v + q, v) == p + MASK + Replace(q, v)
    decreases |p|
  {
    if p == [] {
      ReplaceNow(v, q);
      assert p + v + q == v + q && p + MASK == MASK;
    } else {
      ReplaceLater(p, v, q);
      FirstAfterTail(p, v, q);
      ReplaceFirst(p[1..], v, q);
      Regroup([p[0]], p[1..], Replace(q, v));
      assert [p[0]] + p[1..] == p;
    }
  }

  lemma {:induction false} RedactInTwo(t: string, first: seq<string>, second: seq<string>)
    requires NonEmpty(first) && NonEmpty(second)
    ensures NonEmpty(first + second) && RedactAll(t, first + second) == RedactAll(RedactAll(t, first), second)
  {
    if second == [] {
      assert first + second == first;
    } else {
      var all := first + second;
      assert all[..|all|-1] == first + second[..|second|-1];
      RedactInTwo(t, first, second[..|second|-1]);
    }
  }

  /** A secret is masked as one unit, whatever shorter secrets it contains: when no value that goes before it in
      the order occurs in the text, its first occurrence becomes one mask and the two sides are redacted on
      their own. */
  lemma MaskedAsOneUnit(longer: seq<string>, secret: string, shorter: seq<string>, p: string, q: string)
    requires Plain(longer + [secret] + shorter) && FirstAfter(p, secret, q)
    requires forall v :: v in longer ==> !Contains(p + secret + q, v)
    ensures NonEmpty(shorter) && secret != []
    ensures RedactAll(p + secret + q, longer + [secret] + shorter)
         == RedactAll(p, shorter) + MASK + RedactAll(Replace(q, secret), shorter)
  {
    var all := longer + [secret] + shorter;
    assert all[|longer|] == secret;
    assert forall k :: 0 <= k < |longer| ==> all[k] == longer[k];
    assert forall k :: 0 <= k < |shorter| ==> all[|longer| + 1 + k] == shorter[k];
    assert forall v :: v in shorter ==> v in all;
    RedactInTwo(p + secret + q, longer + [secret], shorter);
    RedactInTwo(p + secret + q, longer, [secret]);
    RedactAbsent(p + secret + q, longer);
    OneValue(p + secret + q, secret);
    ReplaceFirst(p, secret, q);
    RedactAroundMask(p, Replace(q, secret), shorter);
  }

  lemma OneValue(t: string, v: string)
    requires v != []
    ensures RedactAll(t, [v]) == Replace(t, v)
  {
  }

  // ---------------------------------------------------------------- exactly when one value is safe

  /** The value overlaps and agrees with a mask d characters after its start, and it does not occur too early in the
      text that would bring this about. */
  ghost predicate LeaksAt(v: string, d: int) {
    var s := if d < 0 then -d else 0;
    Agrees(v, d) && FirstAfter(v[..s], v, [])
  }

  ghost predicate Leaks(v: string) {
    exists d :: -|v| < d < |MASK| && LeaksAt(v, d)
  }

  lemma PutTogether(v: string, d: int, s: nat, q: string)
    requires Agrees(v, d) && s == (if d < 0 then -d else 0)
    requires q == if d + |v| > |MASK| then v[|MASK| - d..] else []
    ensures At(v[..s] + MASK + q, s + d, v)
  {
  }

  /** A text in which the value is put together again from a mask and what stands around it. */
  lemma LeakingText(v: string, d: int) returns (t: string)
    requires v != [] && LeaksAt(v, d)
    ensures Contains(Replace(t, v), v)
  {
    var s := if d < 0 then -d else 0;
    var q := if d + |v| > |MASK| then v[|MASK| - d..] else [];
    t := v[..s] + v + q;
    forall i | 0 <= i < s ensures !At(v[..s] + v + q, i, v) {
      assert !At(v[..s] + v + [], i, v);
      assert (v[..s] + v + q)[i..i + |v|] == (v[..s] + v + [])[i..i + |v|];
    }
    ReplaceFirst(v[..s], v, q);
    TooShort(q, v);
    PutTogether(v, d, s, q);
    assert At(Replace(t, v), s + d, v);
  }

  lemma {:induction false} TooShort(q: string, v: string)
    requires |q| < |v|
    ensures Replace(q, v) == q
    decreases |q|
  {
    if q != [] { TooShort(q[1..], v); }
  }

  /** The value has begun s characters before t, runs into its first mask m characters after its start, and is not
      replaced before that. */
  ghost predicate RunsInto(t: string, v: string, s: nat, m: nat) {
    && s <= m < |v| && m - s <= |t| && v[s..m] == t[..m - s] && v <= t[m - s..] && Agrees(v, -(m as int))
    && forall x :: 0 <= x < m - s ==> !At(t, x, v)
  }

  lemma RunsIntoNow(t: string, v: string, s: nat)
    requires 0 < s < |v| && v[s..] <= Replace(t, v) && v <= t
    ensures RunsInto(t, v, s, s)
  {
  }

  lemma RunsIntoLater(t: string, v: string, s: nat, m: nat)
    requires 0 < s < |v| && t != [] && v[s] == t[0] && !(v <= t) && RunsInto(t[1..], v, s + 1, m)
    ensures RunsInto(t, v, s, m)
  {
    assert t == [t[0]] + t[1..];
    assert v[s..m] == [v[s]] + v[s+1..m] == t[..m - s];
    assert t[1..][m - s - 1..] == t[m - s..];
    AtStart(t, v);
    forall x | 0 <= x < m - s ensures !At(t, x, v) {
      if x > 0 { AtShift([t[0]], t[1..], x - 1, v); }
    }
  }

  lemma RunsOn(t: string, v: string, s: nat)
    requires 0 < s <= |v| && v[s..] <= Replace(t, v) && !(v[s..] <= t) && !(v <= t)
    ensures s < |v| && t != [] && v[s] == t[0] && v[s+1..] <= Replace(t[1..], v) && !(v[s+1..] <= t[1..])
  {
    var rest := Replace(t[1..], v);
    assert v[s+1..] == v[s..][1..] <= ([t[0]] + rest)[1..] == rest;
    assert t == [t[0]] + t[1..] && v[s..] == [v[s]] + v[s+1..];
  }

  /** The first mask that a value which has begun before t runs into. */
  lemma {:induction false} RunsIntoMask(t: string, v: string, s: nat) returns (m: nat)
    requires 0 < s <= |v| && v[s..] <= Replace(t, v) && !(v[s..] <= t)
    ensures RunsInto(t, v, s, m)
    decreases |t|
  {
    if v <= t {
      m := s;
      RunsIntoNow(t, v, s);
    } else {
      RunsOn(t, v, s);
      m := RunsIntoMask(t[1..], v, s + 1);
      RunsIntoLater(t, v, s, m);
    }
  }

  /** How much of the value stands before the mask. */
  function Ahead(d: int): nat {
    if d < 0 then -d else 0
  }

  lemma LeakInsideMask(v: string, rest: string, i: nat)
    requires v != [] && i < |MASK| && At(MASK + rest, i, v)
    ensures LeaksAt(v, i)
  {
    var out := MASK + rest;
    assert forall k {:trigger v[k]} :: 0 <= k < |v| ==> v[k] == out[i..i + |v|][k] == out[i + k];
  }

  lemma LeakHere(t: string, v: string, i: nat)
    requires v != [] && v <= t && i < |MASK| && At(Replace(t, v), i, v)
    ensures LeaksAt(v, i) && At(t, 0, v[..Ahead(i)] + v)
  {
    LeakInsideMask(v, Replace(t[|v|..], v), i);
    assert v[..0] + v == v;
    AtStart(t, v);
  }

  /** When a value is back after its own replacement, it leaks, and the text had it behind its own beginning. */
  lemma {:induction false} LeakHasCause(t: string, v: string, i: nat) returns (d: int, j: nat)
    requires v != [] && At(Replace(t, v), i, v)
    ensures -|v| < d < |MASK| && LeaksAt(v, d) && At(t, j, v[..Ahead(d)] + v)
    decreases |t|, 1
  {
    if v <= t && i < |MASK| {
      LeakHere(t, v, i);
      d, j := i, 0;
    } else if v <= t {
      AfterMask(t, v, v, i);
      d, j := LeakFurther(t, v, |v|, i - |MASK|);
    } else if i == 0 {
      AtStart(Replace(t, v), v);
      d := LeakFromStart(t, v);
      j := 0;
    } else {
      AfterFirst(t, v, v, i);
      d, j := LeakFurther(t, v, 1, i - 1);
    }
  }

  lemma {:induction false} LeakFurther(t: string, v: string, n: nat, i: nat) returns (d: int, j: nat)
    requires v != [] && 0 < n <= |t| && At(Replace(t[n..], v), i, v)
    ensures -|v| < d < |MASK| && LeaksAt(v, d) && At(t, j, v[..Ahead(d)] + v)
    decreases |t|, 0
  {
    d, j := LeakHasCause(t[n..], v, i);
    j := Further(t, n, j, v[..Ahead(d)] + v);
  }

  /** A value that is there only after the replacement has begun before it. */
  lemma LeakBegins(t: string, v: string)
    requires v != [] && t != [] && !(v <= t) && v <= [t[0]] + Replace(t[1..], v)
    ensures v[0] == t[0] && v[1..] <= Replace(t[1..], v) && !(v[1..] <= t[1..])
  {
    var rest := Replace(t[1..], v);
    assert v[1..] <= ([t[0]] + rest)[1..] == rest;
    assert t == [t[0]] + t[1..] && v == [v[0]] + v[1..];
  }

  lemma LeakFromStart(t: string, v: string) returns (d: int)
    requires v != [] && t != [] && !(v <= t) && v <= [t[0]] + Replace(t[1..], v)
    ensures -|v| < d < |MASK| && LeaksAt(v, d) && At(t, 0, v[..Ahead(d)] + v)
  {
    LeakBegins(t, v);
    var m := RunsIntoMask(t[1..], v, 1);
    d := -(m as int);
    RunsIntoFromStart(t, v, m);
    RunsIntoIsLeak(t, v, m, d);
  }

  /** The same from the start of the text. */
  lemma RunsIntoFromStart(t: string, v: string, m: nat)
    requires v != [] && t != [] && v[0] == t[0] && !(v <= t) && RunsInto(t[1..], v, 1, m)
    ensures RunsInto(t, v, 0, m)
  {
    assert v[0..m] == [v[0]] + v[1..m] && t[..m] == [t[0]] + t[1..][..m - 1];
    assert t[1..][m - 1..] == t[m..];
    NoneBefore(t, v, m);
  }

  lemma NoneBefore(t: string, v: string, m: nat)
    requires t != [] && !(v <= t) && forall x :: 0 <= x < m - 1 ==> !At(t[1..], x, v)
    ensures forall x :: 0 <= x < m ==> !At(t, x, v)
  {
    assert t == [t[0]] + t[1..];
    AtStart(t, v);
    forall x | 0 < x < m ensures !At(t, x, v) { AtShift([t[0]], t[1..], x - 1, v); }
  }

  lemma RunsIntoIsLeak(t: string, v: string, m: nat, d: int)
    requires RunsInto(t, v, 0, m) && d == -(m as int)
    ensures -|v| < d < |MASK| && LeaksAt(v, d) && At(t, 0, v[..Ahead(d)] + v)
  {
    assert v[..m] == v[0..m] == t[..m];
    FirstInPrefix(t, v, m);
    assert t == t[..m] + t[m..];
    AtStart(t, v[..m] + v);
  }

  lemma FirstInPrefix(t: string, v: string, m: nat)
    requires m < |v| && m <= |t| && v[..m] == t[..m] && v <= t[m..]
    requires forall x :: 0 <= x < m ==> !At(t, x, v)
    ensures FirstAfter(v[..m], v, [])
  {
    assert t[m..m + |v|] == t[m..][..|v|] == v;
    assert v[..m] + v + [] == t[..m + |v|];
    forall x | 0 <= x < m ensures !At(v[..m] + v + [], x, v) {
      assert !At(t, x, v);
      assert t[..m + |v|][x..x + |v|] == t[x..x + |v|];
    }
  }

  /** Registered by itself, the value is absent from every redacted text. */
  ghost predicate SafeAlone(v: string)
    requires v != []
  {
    forall t {:trigger Replace(t, v)} :: !Contains(Replace(t, v), v)
  }

  /** A value by itself is safe if and only if it does not leak, which can be read off the value. */
  lemma SafeAloneExactly(v: string)
    requires v != []
    ensures SafeAlone(v) <==> !Leaks(v)
  {
    if Leaks(v) {
      var d :| -|v| < d < |MASK| && LeaksAt(v, d);
      var t := LeakingText(v, d);
      assert Contains(Replace(t, v), v);
    } else {
      forall t ensures !Contains(Replace(t, v), v) {
        if Contains(Replace(t, v), v) {
          var i :| 0 <= i <= |Replace(t, v)| && At(Replace(t, v), i, v);
          var d, j := LeakHasCause(t, v, i);
        }
      }
    }
  }

  /** A part of the word "redacted" is long enough to be registered, and leaks. */
  lemma PartOfMaskLeaks()
    ensures |"acte"| >= MIN_LENGTH && Leaks("acte")
  {
    assert MASK[4] == 'a' && MASK[5] == 'c' && MASK[6] == 't' && MASK[7] == 'e';
    assert LeaksAt("acte", 4);
  }

  // ---------------------------------------------------------------- values in company

  /** Values as a redactor may hold them, in an order in which it may replace them. */
  ghost predicate Registrable(values: seq<string>) {
    && (forall k :: 0 <= k < |values| ==> |values[k]| >= MIN_LENGTH)
    && (forall j, k :: 0 <= j < k < |values| ==> values[j] != values[k])
    && LongestFirst(values)
  }

  /** Whatever else is registered, the value is absent from every redacted text. */
  ghost predicate SafeInCompany(v: string) {
    forall t, values {:trigger RedactAll(t, values)} :: Registrable(values) && NonEmpty(values) && v in values ==>
      !Contains(RedactAll(t, values), v)
  }

  /** As many of one character as v has, none of which the value begins or ends with or has at the given place. */
  lemma Companion(v: string, s: nat) returns (w: string)
    requires s < |v|
    ensures |w| == |v| && w[0] != v[0] && w[0] != v[|v|-1] && (s > 0 ==> w[0] != v[s-1])
    ensures forall k :: 0 <= k < |w| ==> w[k] == w[0]
  {
    var near := {v[0], v[|v|-1], v[if s > 0 then s - 1 else 0]};
    var c := if 'p' !in near then 'p' else if 'q' !in near then 'q' else if 'x' !in near then 'x' else 'y';
    w := seq(|v|, _ => c);
  }

  lemma NotAt(t: string, i: nat, v: string, k: nat)
    requires k < |v| && (i + |v| <= |t| ==> t[i + k] != v[k])
    ensures !At(t, i, v)
  {
    assert i + |v| <= |t| ==> t[i..i + |v|][k] == t[i + k];
  }

  /** The value does not occur in the text that its companion makes of its surroundings. */
  lemma CompanionHides(v: string, s: nat, w: string, q: string)
    requires s < |v| == |w| && |q| < |v| && w[0] != v[0] && w[0] != v[|v|-1]
    requires forall k :: 0 <= k < |w| ==> w[k] == w[0]
    ensures !Contains(v[..s] + w + q, v)
  {
    var t := v[..s] + w + q;
    assert forall k :: s <= k < s + |w| ==> t[k] == w[k - s] == w[0];
    forall i | 0 <= i <= |t| ensures !At(t, i, v) {
      NotAt(t, i, v, if i <= s then |v| - 1 else 0);
    }
  }

  lemma CompanionIsFirst(v: string, s: nat, w: string, q: string)
    requires s < |v| == |w| && (s > 0 ==> w[0] != v[s-1]) && forall k :: 0 <= k < |w| ==> w[k] == w[0]
    ensures FirstAfter(v[..s], w, q)
  {
    var t := v[..s] + w + q;
    forall i | 0 <= i < s ensures !At(t, i, w) {
      assert t[s-1] == v[s-1];
      NotAt(t, i, w, s - 1 - i);
    }
  }

  lemma CompanionRedacted(v: string, s: nat, w: string, q: string)
    requires s < |v| == |w| && |q| < |v| && w[0] != v[0] && w[0] != v[|v|-1] && (s > 0 ==> w[0] != v[s-1])
    requires forall k :: 0 <= k < |w| ==> w[k] == w[0]
    ensures RedactAll(v[..s] + w + q, [v, w]) == v[..s] + MASK + q
  {
    var t := v[..s] + w + q;
    CompanionHides(v, s, w, q);
    ReplaceAbsent(t, v);
    OneValue(t, v);
    assert [v, w][..1] == [v];
    CompanionIsFirst(v, s, w, q);
    ReplaceFirst(v[..s], w, q);
    TooShort(q, w);
  }

  lemma PairRegistrable(v: string, w: string)
    requires |v| == |w| >= MIN_LENGTH && w != v
    ensures Registrable([v, w]) && NonEmpty([v, w])
  {
  }

  /** Next to its companion, a value that can meet the mask leaks. */
  lemma LeaksInCompany(v: string, d: int) returns (t: string, w: string)
    requires |v| >= MIN_LENGTH && Agrees(v, d)
    ensures Registrable([v, w]) && NonEmpty([v, w]) && Contains(RedactAll(t, [v, w]), v)
  {
    var s := Ahead(d);
    var q := if d + |v| > |MASK| then v[|MASK| - d..] else [];
    w := Companion(v, s);
    PairRegistrable(v, w);
    t := v[..s] + w + q;
    CompanionRedacted(v, s, w, q);
    PutTogether(v, d, s, q);
    AtIsContained(v[..s] + MASK + q, s + d, v);
  }

  lemma AtIsContained(t: string, i: nat, v: string)
    requires At(t, i, v)
    ensures Contains(t, v)
  {
  }

  /** Whatever other values are registered, a value is safe if and only if it cannot meet the mask. */
  lemma SafeInCompanyExactly(v: string)
    requires |v| >= MIN_LENGTH
    ensures SafeInCompany(v) <==> !Touches(v)
  {
    if Touches(v) {
      var d :| -|v| < d < |MASK| && Agrees(v, d);
      var t, w := LeaksInCompany(v, d);
      assert v in [v, w];
    } else {
      forall t, values | Registrable(values) && NonEmpty(values) && v in values
        ensures !Contains(RedactAll(t, values), v)
      {
        RedactionIsComplete(t, values, v);
      }
    }
  }

  /** A value that leaks by itself may yet be safe among given others: when each text that would bring it back contains
      a value which goes before it and cannot meet the mask. */
  lemma Protected(values: seq<string>, v: string, t: string)
    requires NonEmpty(values + [v])
    requires forall d :: -|v| < d < |MASK| && LeaksAt(v, d) ==>
               exists x :: x in values && !Touches(x) && Contains(v[..Ahead(d)] + v, x)
    ensures !Contains(RedactAll(t, values + [v]), v)
  {
    var all := values + [v];
    assert all[..|values|] == values && all[|values|] == v;
    assert forall k :: 0 <= k < |values| ==> values[k] == all[k];
    var u := RedactAll(t, values);
    if Contains(Replace(u, v), v) {
      var i :| 0 <= i <= |Replace(u, v)| && At(Replace(u, v), i, v);
      var d, j := LeakHasCause(u, v, i);
      var x :| x in values && !Touches(x) && Contains(v[..Ahead(d)] + v, x);
      RedactionIsComplete(t, values, x);
      ContainsWithin(u, j, v[..Ahead(d)] + v, x);
    }
  }

  lemma ContainsWithin(t: string, j: nat, part: string, x: string)
    requires At(t, j, part) && Contains(part, x)
    ensures Contains(t, x)
  {
    var i: nat :| i <= |part| && At(part, i, x);
    forall k | 0 <= k < |x| ensures t[j + i + k] == x[k] {
      assert x[k] == part[i..i + |x|][k] == t[j..j + |part|][i + k];
    }
    assert t[j + i..j + i + |x|] == x;
    AtIsContained(t, j + i, x);
  }

  const LEAKING: string := "abc("
  const PROTECTING: string := "bcabc"

  lemma Disagrees(v: string, d: int, k: nat)
    requires -|v| < d < |MASK| && k < |v| && 0 <= d + k < |MASK| && v[k] != MASK[d + k]
    ensures !Agrees(v, d)
  {
  }

  lemma LeakingMeetsMaskOnce(d: int)
    requires -4 < d < |MASK| && d != -3
    ensures !Agrees(LEAKING, d)
  {
    assert LEAKING[0] == 'a' && LEAKING[1] == 'b' && LEAKING[2] == 'c';
    Disagrees(LEAKING, d, if d == 4 then 1 else if d >= 0 then 0 else -d);
  }

  lemma LeakingLeaks()
    ensures LeaksAt(LEAKING, -3)
  {
    var t := LEAKING[..3] + LEAKING + [];
    assert LEAKING[..3] == "abc" && t == "abcabc(";
    NotAt(t, 0, LEAKING, 3);
    NotAt(t, 1, LEAKING, 0);
    NotAt(t, 2, LEAKING, 0);
    assert LEAKING[3] == MASK[0];
  }

  lemma ProtectingIsPlain()
    ensures !Touches(PROTECTING)
  {
    forall i | 0 <= i <= 8 ensures !At("redacted", i, PROTECTING) { NotAt("redacted", i, PROTECTING, 0); }
    PlainValuesDoNotTouch(PROTECTING);
  }

  /** Such a pair: the second value leaks by itself, and not next to the first. */
  lemma ProtectedPair(t: string)
    ensures Leaks(LEAKING) && Registrable([PROTECTING] + [LEAKING]) && NonEmpty([PROTECTING] + [LEAKING])
    ensures !Contains(RedactAll(t, [PROTECTING] + [LEAKING]), LEAKING)
  {
    LeakingLeaks();
    ProtectingIsPlain();
    assert LEAKING[..3] + LEAKING == "abcabc(";
    assert At("abcabc(", 1, PROTECTING);
    forall d | -|LEAKING| < d < |MASK| && LeaksAt(LEAKING, d)
      ensures exists x :: x in [PROTECTING] && !Touches(x) && Contains(LEAKING[..Ahead(d)] + LEAKING, x)
    {
      if d != -3 { LeakingMeetsMaskOnce(d); }
      assert PROTECTING in [PROTECTING];
    }
    Protected([PROTECTING], LEAKING, t);
  }

  // ---------------------------------------------------------------- the redactor itself

  function InsertByLength(values: seq<string>, v: string): (r: seq<string>)
    ensures forall x :: x in r <==> x == v || x in values
    ensures LongestFirst(values) ==> LongestFirst(r)
  {
    if values == [] || |values[0]| < |v| then [v] + values else
    var rest := InsertByLength(values[1..], v);
    assert forall x :: x in values <==> x == values[0] || x in values[1..];
    assert forall k :: 0 <= k < |rest| ==> rest[k] in rest;
    [values[0]] + rest
  }

  class Redactor {
    var values: set<string>

    constructor ()
      ensures Valid() && values == {}
    {
      values := {};
    }

    predicate Valid()
      reads this
    {
      forall v :: v in values ==> |v| >= MIN_LENGTH
    }

    /** Values that are absent or too short are not registered. */
    method Register(value: Option<string>)
      requires Valid()
      modifies this
      ensures Valid() && forall v :: v in values <==> v in old(values) || (value == Some(v) && |v| >= MIN_LENGTH)
    {
      if value.None? || |value.value| < MIN_LENGTH {
        return;
      }
      values := values + {value.value};
    }

    /** In an order in which longer values come first; among equally long ones any order may come out. */
    method RegisteredValues() returns (ordered: seq<string>)
      requires Valid()
      ensures LongestFirst(ordered) && NonEmpty(ordered) && forall v :: v in ordered <==> v in values
    {
      ordered := [];
      var left := values;
      while left != {}
        invariant left <= values && LongestFirst(ordered)
        invariant forall v :: v in ordered <==> v in values && v !in left
        decreases |left|
      {
        var v :| v in left;
        left := left - {v};
        ordered := InsertByLength(ordered, v);
      }
      forall k | 0 <= k < |ordered| ensures ordered[k] != [] { assert ordered[k] in values; }
    }

    method Redact(text: string) returns (redacted: string, ghost ordered: seq<string>)
      requires Valid()
      ensures LongestFirst(ordered) && NonEmpty(ordered) && forall v :: v in ordered <==> v in values
      ensures redacted == RedactAll(text, ordered)
      ensures forall v :: v in values && !Touches(v) ==> !Contains(redacted, v)
    {
      var all := RegisteredValues();
      ordered := all;
      redacted := text;
      for k := 0 to |all|
        invariant NonEmpty(all[..k]) && redacted == RedactAll(text, all[..k])
      {
        assert all[..k+1][..k] == all[..k];
        if Contains(redacted, all[k]) {
          redacted := Replace(redacted, all[k]);
        } else {
          ReplaceAbsent(redacted, all[k]);
        }
      }
      assert all[..|all|] == all;
      forall v | v in values && !Touches(v) ensures !Contains(redacted, v) { RedactionIsComplete(text, all, v); }
    }
  }
}
