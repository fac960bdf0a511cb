/**
 * The JSON-block search of `extract_and_validate_json`: the leftmost match of
 * the pattern `\{[^{}]*(?:\{[^{}]*\}[^{}]*)*\}` in the model's raw reply, that
 * is, an object whose braces nest at most one level deep.
 *
 * Because the pattern's character classes exclude both braces, at a given start
 * position the pattern matches at most one span, whatever the matcher's
 * greediness. `MatchEnd` is the scan that finds it; `FlatObject` is an
 * independent description of the pattern's language by brace depth, and
 * `MatchAtIsFlatObject` proves the two agree.
 */
module BraceSpan {
  import opened Wrappers

  /** How a character moves the brace depth. */
  function Delta(c: char): (d: int)
    ensures -1 <= d <= 1
    ensures d == 0 <==> c != '{' && c != '}'
  {
    if c == '{' then 1 else if c == '}' then -1 else 0
  }

  /** The brace depth reached at the end of `t`: opening minus closing braces. */
  function Depth(t: string): int
  {
    if t == [] then 0 else Delta(t[0]) + Depth(t[1..])
  }

  /** Starting at depth `d`, every prefix of `t` keeps the depth between 0 and 1. */
  ghost predicate WithinOne(t: string, d: int)
  {
    forall k :: 0 <= k <= |t| ==> 0 <= d + Depth(t[..k]) <= 1
  }

  /**
   * The language of the pattern: an opening brace, a body whose braces form
   * `{}` pairs that never nest and all close, and a closing brace.
   */
  ghost predicate FlatObject(t: string)
  {
    |t| >= 2 && t[0] == '{' && t[|t| - 1] == '}' &&
    WithinOne(t[1..|t| - 1], 0) && Depth(t[1..|t| - 1]) == 0
  }

  /**
   * The scan after the opening brace, from position `i`, `inner` telling whether
   * an inner object is open. The result is the position just past the closing
   * brace, or `None` when the pattern cannot match.
   */
  function MatchEnd(s: string, i: nat, inner: bool): (r: Option<nat>)
    requires i <= |s|
    ensures r.Some? ==> i < r.value <= |s| && s[r.value - 1] == '}'
    decreases |s| - i
  {
    if i == |s| then None
    else if s[i] == '{' then (if inner then None else MatchEnd(s, i + 1, true))
    else if s[i] == '}' then (if inner then MatchEnd(s, i + 1, false) else Some(i + 1))
    else MatchEnd(s, i + 1, inner)
  }

  /** The match of the pattern starting at position `p`, as its end position. */
  function MatchAt(s: string, p: nat): (r: Option<nat>)
    ensures r.Some? ==> p < |s| && s[p] == '{' && p + 2 <= r.value <= |s| && s[r.value - 1] == '}'
  {
    if p < |s| && s[p] == '{' then MatchEnd(s, p + 1, false) else None
  }

  /** The span `s[lo..hi]` of a match. */
  datatype Span = Span(lo: nat, hi: nat)

  /** `re.search`: the match at the leftmost position from `p` on where there is one. */
  function SearchFrom(s: string, p: nat): (r: Option<Span>)
    requires p <= |s|
    ensures r.None? <==> forall q :: p <= q <= |s| ==> MatchAt(s, q).None?
    ensures r.Some? ==> p <= r.value.lo < r.value.hi <= |s| && MatchAt(s, r.value.lo) == Some(r.value.hi)
    ensures r.Some? ==> forall q :: p <= q < r.value.lo ==> MatchAt(s, q).None?
    decreases |s| - p
  {
    var m := MatchAt(s, p);
    if m.Some? then Some(Span(p, m.value))
    else if p == |s| then None
    else SearchFrom(s, p + 1)
  }

  /** The leftmost match in the whole text. */
  function Search(s: string): (r: Option<Span>)
    ensures r.None? <==> forall q :: 0 <= q <= |s| ==> MatchAt(s, q).None?
    ensures r.Some? ==> r.value.lo < r.value.hi <= |s| && MatchAt(s, r.value.lo) == Some(r.value.hi)
    ensures r.Some? ==> forall q :: 0 <= q < r.value.lo ==> MatchAt(s, q).None?
  {
    SearchFrom(s, 0)
  }

  /** The prefixes of `t[1..]` are those of `t` less its first character. */
  lemma PrefixDepth(t: string, k: nat)
    requires 0 < |t| && k < |t|
    ensures Depth(t[..k + 1]) == Delta(t[0]) + Depth(t[1..][..k])
  {
    assert t[..k + 1][1..] == t[1..][..k];
  }

  /** Dropping the first character of a body that stays within one level. */
  lemma {:induction false} WithinOneTail(t: string, d: int)
    requires 0 < |t| && WithinOne(t, d)
    ensures WithinOne(t[1..], d + Delta(t[0]))
  {
    forall k | 0 <= k <= |t[1..]|
      ensures 0 <= d + Delta(t[0]) + Depth(t[1..][..k]) <= 1
    {
      PrefixDepth(t, k);
      assert 0 <= d + Depth(t[..k + 1]) <= 1;
    }
  }

  /** Putting back the first character, from a start depth within one level. */
  lemma {:induction false} WithinOneCons(t: string, d: int)
    requires 0 < |t| && 0 <= d <= 1 && WithinOne(t[1..], d + Delta(t[0]))
    ensures WithinOne(t, d)
  {
    forall k | 0 <= k <= |t|
      ensures 0 <= d + Depth(t[..k]) <= 1
    {
      if k == 0 {
        assert t[..0] == [];
      } else {
        PrefixDepth(t, k - 1);
        assert 0 <= d + Delta(t[0]) + Depth(t[1..][..k - 1]) <= 1;
      }
    }
  }

  /** The start depth an open inner object stands for. */
  function Level(inner: bool): (d: int)
    ensures 0 <= d <= 1
  {
    if inner then 1 else 0
  }

  /** What the scan finds: a closing brace reached from `i` at depth 0. */
  ghost predicate ClosesAt(s: string, i: nat, inner: bool, e: nat)
  {
    i < e <= |s| && s[e - 1] == '}' &&
    WithinOne(s[i..e - 1], Level(inner)) && Level(inner) + Depth(s[i..e - 1]) == 0
  }

  /** Whatever the scan returns closes the object. */
  lemma {:induction false} MatchEndSound(s: string, i: nat, inner: bool)
    requires i <= |s| && MatchEnd(s, i, inner).Some?
    ensures ClosesAt(s, i, inner, MatchEnd(s, i, inner).value)
    decreases |s| - i
  {
    var e := MatchEnd(s, i, inner).value;
    if s[i] == '}' && !inner {
      assert s[i..e - 1] == [];
    } else {
      var inner' := if s[i] == '{' then true else if s[i] == '}' then false else inner;
      assert MatchEnd(s, i + 1, inner') == Some(e);
      MatchEndSound(s, i + 1, inner');
      var t := s[i..e - 1];
      assert t[1..] == s[i + 1..e - 1];
      assert Level(inner') == Level(inner) + Delta(t[0]);
      WithinOneCons(t, Level(inner));
    }
  }

  /** Every closing position is the one the scan returns. */
  lemma {:induction false} MatchEndComplete(s: string, i: nat, inner: bool, e: nat)
    requires i <= |s| && ClosesAt(s, i, inner, e)
    ensures MatchEnd(s, i, inner) == Some(e)
    decreases |s| - i
  {
    var t := s[i..e - 1];
    if i == e - 1 {
      assert t == [];
    } else {
      assert t[0] == s[i];
      assert t[..1] == [s[i]];
      assert Depth(t[..1]) == Delta(s[i]);
      var inner' := if s[i] == '{' then true else if s[i] == '}' then false else inner;
      assert Level(inner') == Level(inner) + Delta(t[0]);
      WithinOneTail(t, Level(inner));
      assert t[1..] == s[i + 1..e - 1];
      MatchEndComplete(s, i + 1, inner', e);
    }
  }

  /** The inside of the slice `s[p..e]` is the slice between its ends. */
  lemma InnerSlice(s: string, p: nat, e: nat)
    requires p + 2 <= e <= |s|
    ensures s[p..e][1..e - p - 1] == s[p + 1..e - 1]
  {
    var t := s[p..e];
    var inside := t[1..e - p - 1];
    var between := s[p + 1..e - 1];
    assert |inside| == |between|;
    forall k | 0 <= k < |inside| ensures inside[k] == between[k] {
      assert t[1 + k] == s[p + 1 + k];
    }
  }

  /** The pattern matches at `p` and ends at `e` exactly when `s[p..e]` is a flat object. */
  lemma MatchAtIsFlatObject(s: string, p: nat, e: nat)
    requires p <= e <= |s|
    ensures MatchAt(s, p) == Some(e) <==> FlatObject(s[p..e])
  {
    if MatchAt(s, p) == Some(e) {
      MatchEndSound(s, p + 1, false);
      InnerSlice(s, p, e);
    }
    if FlatObject(s[p..e]) {
      InnerSlice(s, p, e);
      assert ClosesAt(s, p + 1, false, e);
      MatchEndComplete(s, p + 1, false, e);
    }
  }

  /**
   * `Search` finds the leftmost flat object, and none exists when it finds
   * nothing.
   */
  lemma SearchIsLeftmost(s: string)
    ensures Search(s).Some? ==> FlatObject(s[Search(s).value.lo..Search(s).value.hi])
    ensures Search(s).Some? ==>
      forall q, e :: 0 <= q < Search(s).value.lo && q <= e <= |s| ==> !FlatObject(s[q..e])
    ensures Search(s).None? <==> forall q, e :: 0 <= q <= e <= |s| ==> !FlatObject(s[q..e])
  {
    var r := Search(s);
    if r.Some? {
      MatchAtIsFlatObject(s, r.value.lo, r.value.hi);
    }
    forall q, e | 0 <= q <= e <= |s| && FlatObject(s[q..e])
      ensures r.Some? && r.value.lo <= q
    {
      MatchAtIsFlatObject(s, q, e);
    }
  }
}
