/** The helpers of js/utils.js: key normalisation, clamping, shrinkage toward
    zero, and the "related to something already watched" test. */
module Utils {
  import opened Wrappers
  import opened Seqs
  import opened Anime

  // ---------------------------------------------------------------- lower

  /** The ASCII characters `String.prototype.trim` removes. */
  predicate IsSpace(c: char) {
    c == ' ' || '\t' <= c <= '\r'
  }

  predicate IsUpper(c: char) {
    'A' <= c <= 'Z'
  }

  /** No whitespace at either end. */
  predicate Trimmed(s: string) {
    s == [] || (!IsSpace(s[0]) && !IsSpace(s[|s| - 1]))
  }

  /** `s` without its leading whitespace. */
  function TrimStart(s: string): string {
    if s != [] && IsSpace(s[0]) then TrimStart(s[1..]) else s
  }

  /** `s` without its trailing whitespace. */
  function TrimEnd(s: string): string {
    if s != [] && IsSpace(s[|s| - 1]) then TrimEnd(s[..|s| - 1]) else s
  }

  /** `s.trim()`. */
  function Trim(s: string): string {
    TrimEnd(TrimStart(s))
  }

  lemma {:induction false} TrimStartSpec(s: string)
    ensures var r := TrimStart(s);
      && |r| <= |s| && r == s[|s| - |r|..]
      && (forall i :: 0 <= i < |s| - |r| ==> IsSpace(s[i]))
      && (r == [] || !IsSpace(r[0]))
  {
    if s != [] && IsSpace(s[0]) {
      TrimStartSpec(s[1..]);
    }
  }

  lemma {:induction false} TrimEndSpec(s: string)
    ensures var r := TrimEnd(s);
      && |r| <= |s| && r == s[..|r|]
      && (forall i :: |r| <= i < |s| ==> IsSpace(s[i]))
      && (r == [] || !IsSpace(r[|r| - 1]))
  {
    if s != [] && IsSpace(s[|s| - 1]) {
      TrimEndSpec(s[..|s| - 1]);
    }
  }

  /** `s.trim()` is the middle part of `s` with no whitespace at its ends:
      what it cuts off on either side is whitespace only. It leaves a string
      that has none at its ends as it is. */
  lemma TrimSpec(s: string)
    ensures Trimmed(Trim(s)) && |Trim(s)| <= |s|
    ensures exists a, b ::
      && 0 <= a <= b <= |s| && Trim(s) == s[a..b]
      && (forall i :: 0 <= i < a ==> IsSpace(s[i]))
      && (forall i :: b <= i < |s| ==> IsSpace(s[i]))
    ensures Trimmed(s) ==> Trim(s) == s
  {
    var a, b := TrimCuts(s);
    var t := TrimStart(s);
    TrimStartSpec(s);
    TrimEndSpec(t);
    var r := TrimEnd(t);
    if r != [] {
      assert r[0] == t[0];
    }
  }

  /** Where `s.trim()` cuts: the slice it keeps, with whitespace only before and after it. */
  lemma TrimCuts(s: string) returns (a: nat, b: nat)
    ensures a <= b <= |s| && Trim(s) == s[a..b]
    ensures forall i :: 0 <= i < a ==> IsSpace(s[i])
    ensures forall i :: b <= i < |s| ==> IsSpace(s[i])
  {
    var t := TrimStart(s);
    TrimStartSpec(s);
    TrimEndSpec(t);
    var r := TrimEnd(t);
    a, b := |s| - |t|, |s| - |t| + |r|;
    assert r == s[a..b];
    forall i | b <= i < |s| ensures IsSpace(s[i]) {
      assert s[i] == t[i - a];
    }
  }

  function ToLowerChar(c: char): char {
    if IsUpper(c) then (c as int + 32) as char else c
  }

  /** `s.toLowerCase()` on ASCII letters. */
  function ToLowerAscii(s: string): string {
    if s == [] then [] else [ToLowerChar(s[0])] + ToLowerAscii(s[1..])
  }

  lemma {:induction false} ToLowerAsciiSpec(s: string)
    ensures |ToLowerAscii(s)| == |s|
    ensures forall i :: 0 <= i < |s| ==> ToLowerAscii(s)[i] == ToLowerChar(s[i])
  {
    if s != [] {
      ToLowerAsciiSpec(s[1..]);
    }
  }

  /** Lower-casing a string with no upper-case letter changes nothing. */
  lemma {:induction false} ToLowerAsciiFixed(s: string)
    requires forall i :: 0 <= i < |s| ==> !IsUpper(s[i])
    ensures ToLowerAscii(s) == s
  {
    if s != [] {
      ToLowerAsciiFixed(s[1..]);
    }
  }

  /** `lower(s)`: an absent (or empty) string becomes "", anything else is
      trimmed and lower-cased. */
  function Lower(s: Option<string>): (r: string)
    ensures s.None? ==> r == ""
  {
    match s
    case None => ""
    case Some(x) => ToLowerAscii(Trim(x))
  }

  /** A lowered key has no whitespace at either end and no upper-case letter. */
  lemma LowerNormal(s: Option<string>)
    ensures Trimmed(Lower(s))
    ensures forall i :: 0 <= i < |Lower(s)| ==> !IsUpper(Lower(s)[i])
  {
    if s.Some? {
      var t := Trim(s.value);
      TrimSpec(s.value);
      ToLowerAsciiSpec(t);
      var r := ToLowerAscii(t);
      if r != [] {
        assert r[0] == ToLowerChar(t[0]) && r[|r| - 1] == ToLowerChar(t[|t| - 1]);
      }
    }
  }

  /** A key that has been through `lower` is left as it is by a second pass. */
  lemma LowerIdempotent(s: Option<string>)
    ensures Lower(Some(Lower(s))) == Lower(s)
  {
    var r := Lower(s);
    LowerNormal(s);
    TrimSpec(r);
    ToLowerAsciiFixed(r);
  }

  // ---------------------------------------------------------------- clamp

  function Max(a: real, b: real): real {
    if a >= b then a else b
  }

  /** `clamp(v, a, b)`: `v` brought into the range from `a` to `b`, the lower bound applied last. */
  function Clamp(v: real, a: real, b: real): (r: real)
    ensures a <= b ==> a <= r <= b
    ensures a <= v <= b ==> r == v
    ensures v < a ==> r == a
    ensures a <= b < v ==> r == b
  {
    Max(a, Min(b, v))
  }

  // ---------------------------------------------------------------- shrink

  function Abs(x: real): real {
    if x < 0.0 then -x else x
  }

  /** The factor `count / (count + k)` by which `shrink` scales its input. */
  function ShrinkFactor(count: real, k: real): (f: real)
    requires count >= 0.0 && k > 0.0
    ensures 0.0 <= f < 1.0
    ensures f == 0.0 <==> count == 0.0
  {
    count / (count + k)
  }

  /** `shrink(raw, count, K)`: pulls `raw` toward zero, the more the less
      evidence `count` there is. */
  function Shrink(raw: real, count: real, k: real): (r: real)
    requires count >= 0.0 && k > 0.0
    ensures count == 0.0 ==> r == 0.0
    ensures count > 0.0 ==> (r > 0.0 <==> raw > 0.0) && (r < 0.0 <==> raw < 0.0)
    ensures Abs(r) <= Abs(raw)
    ensures raw != 0.0 ==> Abs(r) < Abs(raw)
  {
    var f := ShrinkFactor(count, k);
    ScaleBelowOne(raw, f);
    raw * f
  }

  lemma ScaleBelowOne(raw: real, f: real)
    requires 0.0 <= f < 1.0
    ensures Abs(raw * f) == Abs(raw) * f
    ensures raw != 0.0 ==> Abs(raw * f) < Abs(raw)
    ensures f > 0.0 ==> (raw * f > 0.0 <==> raw > 0.0) && (raw * f < 0.0 <==> raw < 0.0)
  {
    if raw < 0.0 {
      assert raw * f == -((-raw) * f);
      assert (-raw) * f < -raw;
    } else if raw > 0.0 {
      assert raw * f < raw;
    }
  }

  /** More evidence means less shrinkage: for a fixed non-zero input, the
      magnitude of the result strictly grows with `count`. */
  lemma ShrinkMonotone(raw: real, c1: real, c2: real, k: real)
    requires 0.0 <= c1 < c2 && k > 0.0 && raw != 0.0
    ensures Abs(Shrink(raw, c1, k)) < Abs(Shrink(raw, c2, k))
  {
    FactorMonotone(c1, c2, k);
    ShrinkAbs(raw, c1, k);
    ShrinkAbs(raw, c2, k);
    ScaledLess(Abs(raw), ShrinkFactor(c1, k), ShrinkFactor(c2, k), Abs(Shrink(raw, c1, k)), Abs(Shrink(raw, c2, k)));
  }

  lemma ScaledLess(a: real, f1: real, f2: real, x1: real, x2: real)
    requires a > 0.0 && f1 < f2 && x1 == a * f1 && x2 == a * f2
    ensures x1 < x2
  {
    MulLess(a, f1, f2);
  }

  lemma ShrinkAbs(raw: real, count: real, k: real)
    requires count >= 0.0 && k > 0.0
    ensures Abs(Shrink(raw, count, k)) == Abs(raw) * ShrinkFactor(count, k)
  {
    ScaleBelowOne(raw, ShrinkFactor(count, k));
  }

  lemma FactorMonotone(c1: real, c2: real, k: real)
    requires 0.0 <= c1 < c2 && k > 0.0
    ensures ShrinkFactor(c1, k) < ShrinkFactor(c2, k)
  {
    MulLess(k, c1, c2);
    assert c1 * (c2 + k) == c1 * c2 + c1 * k;
    assert c2 * (c1 + k) == c2 * c1 + c2 * k;
    FractionLess(c1, c1 + k, c2, c2 + k);
  }

  lemma MulLess(a: real, x: real, y: real)
    requires a > 0.0 && x < y
    ensures a * x < a * y
  {
    assert a * y - a * x == a * (y - x);
  }

  lemma FractionLess(a: real, b: real, c: real, d: real)
    requires b > 0.0 && d > 0.0 && a * d < c * b
    ensures a / b < c / d
  {
    var x, y := a / b, c / d;
    assert x * b == a;
    assert y * d == c;
    assert (x - y) * (b * d) == a * d - c * b;
    assert b * d > 0.0;
  }

  /** What is left after shrinking: the gap to the unshrunk magnitude is
      `|raw| * K / (count + K)`, which vanishes as `count` grows. */
  lemma ShrinkGap(raw: real, count: real, k: real)
    requires count >= 0.0 && k > 0.0
    ensures Abs(raw) - Abs(Shrink(raw, count, k)) == Abs(raw) * (k / (count + k))
  {
    var f := ShrinkFactor(count, k);
    ScaleBelowOne(raw, f);
    assert f + k / (count + k) == 1.0;
  }

  // ---------------------------------------------------------------- related

  /** The relation types `isRelatedToWatched` follows. */
  const RelatedTypes: seq<string> :=
    ["PREQUEL", "SEQUEL", "ALTERNATIVE", "PARENT", "SIDE_STORY", "SUMMARY", "COMPILATION"]

  /** `isRelatedToWatched(anime, watchedIds)`. */
  function IsRelatedToWatched(m: Media, watched: set<int>): (b: bool)
    ensures b <==> exists i :: (0 <= i < |m.relations|
      && m.relations[i].relationType in RelatedTypes
      && m.relations[i].nodeId in watched)
  {
    Any(m.relations, (r: Relation) => r.relationType in RelatedTypes && r.nodeId in watched)
  }

  /** Edges of any other type (ADAPTATION, CHARACTER, SPIN_OFF, ...) never
      make an item count as related to a watched one. */
  lemma OtherEdgesIgnored(m: Media, watched: set<int>, extra: Relation)
    requires extra.relationType !in RelatedTypes
    ensures IsRelatedToWatched(m.(relations := m.relations + [extra]), watched)
        == IsRelatedToWatched(m, watched)
  {
    var m' := m.(relations := m.relations + [extra]);
    if IsRelatedToWatched(m', watched) {
      var i :| 0 <= i < |m'.relations|
        && m'.relations[i].relationType in RelatedTypes && m'.relations[i].nodeId in watched;
      assert i < |m.relations| && m.relations[i] == m'.relations[i];
    }
    if IsRelatedToWatched(m, watched) {
      var i :| 0 <= i < |m.relations|
        && m.relations[i].relationType in RelatedTypes && m.relations[i].nodeId in watched;
      assert m'.relations[i] == m.relations[i];
    }
  }

}
