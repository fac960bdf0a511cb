/**
 * The Python string operations the core relies on: `str.isspace` on one
 * character, `lower()`, `strip()` and the no-argument `split()`.
 */
module Text {

  /** The characters Python's `str.isspace()` accepts. */
  predicate IsSpace(c: char)
  {
    || ('\t' <= c <= '\r')
    || ('\U{1c}' <= c <= ' ')
    || c == '\U{85}' || c == '\U{a0}' || c == '\U{1680}'
    || ('\U{2000}' <= c <= '\U{200a}')
    || c == '\U{2028}' || c == '\U{2029}' || c == '\U{202f}' || c == '\U{205f}' || c == '\U{3000}'
  }

  /** Lower-cases one character; only the ASCII letters are mapped. */
  function LowerChar(c: char): (r: char)
    ensures 'A' <= c <= 'Z' ==> 'a' <= r <= 'z'
    ensures !('A' <= c <= 'Z') ==> r == c
  {
    if 'A' <= c <= 'Z' then (c as int + 32) as char else c
  }

  /** `s.lower()`, character by character. */
  function Lower(s: string): (r: string)
    ensures |r| == |s|
    ensures forall i :: 0 <= i < |s| ==> r[i] == LowerChar(s[i])
  {
    if s == [] then [] else [LowerChar(s[0])] + Lower(s[1..])
  }

  /** `s.lstrip()`. */
  function TrimLeft(s: string): (r: string)
    ensures |r| <= |s|
  {
    if s != [] && IsSpace(s[0]) then TrimLeft(s[1..]) else s
  }

  /** `lstrip()` removes exactly the leading whitespace: a suffix remains that does not start with a space. */
  lemma {:induction false} TrimLeftSuffix(s: string)
    ensures TrimLeft(s) == s[|s| - |TrimLeft(s)|..]
    ensures TrimLeft(s) == [] || !IsSpace(TrimLeft(s)[0])
    ensures forall i :: 0 <= i < |s| - |TrimLeft(s)| ==> IsSpace(s[i])
  {
    if s != [] && IsSpace(s[0]) {
      TrimLeftSuffix(s[1..]);
    }
  }

  /** `s.rstrip()`. */
  function TrimRight(s: string): (r: string)
    ensures |r| <= |s|
  {
    if s != [] && IsSpace(s[|s| - 1]) then TrimRight(s[..|s| - 1]) else s
  }

  /** `rstrip()` removes exactly the trailing whitespace: a prefix remains that does not end with a space. */
  lemma {:induction false} TrimRightPrefix(s: string)
    ensures TrimRight(s) == s[..|TrimRight(s)|]
    ensures TrimRight(s) == [] || !IsSpace(TrimRight(s)[|TrimRight(s)| - 1])
    ensures forall i :: |TrimRight(s)| <= i < |s| ==> IsSpace(s[i])
  {
    if s != [] && IsSpace(s[|s| - 1]) {
      TrimRightPrefix(s[..|s| - 1]);
    }
  }

  /** `s.strip()`: the text between the leading and the trailing whitespace. */
  function Strip(s: string): (r: string)
    ensures r == [] || (!IsSpace(r[0]) && !IsSpace(r[|r| - 1]))
    ensures r == [] <==> forall i :: 0 <= i < |s| ==> IsSpace(s[i])
    ensures exists lo: nat, hi: nat :: StripBounds(s, lo, hi) && r == s[lo..hi]
  {
    var t := TrimLeft(s);
    TrimLeftSuffix(s);
    TrimRightPrefix(t);
    assert t == [] ==> forall i :: 0 <= i < |s| ==> IsSpace(s[i]);
    var lo := |s| - |t|;
    var hi := lo + |TrimRight(t)|;
    assert s[lo..hi] == TrimRight(t);
    forall i | hi <= i < |s| ensures IsSpace(s[i]) {
      assert s[i] == t[i - lo];
    }
    assert StripBounds(s, lo, hi);
    TrimRight(t)
  }

  /** Only whitespace lies before `lo` and from `hi` on. */
  predicate StripBounds(s: string, lo: nat, hi: nat)
  {
    lo <= hi <= |s| &&
    (forall i :: 0 <= i < lo ==> IsSpace(s[i])) && (forall i :: hi <= i < |s| ==> IsSpace(s[i]))
  }

  /** True when `s.strip()` is empty: the text is empty or all whitespace. */
  predicate IsBlank(s: string)
  {
    Strip(s) == []
  }

  /** The index of the first whitespace character at or after `i`, or `|s|`. */
  function WordEnd(s: string, i: nat): (j: nat)
    requires i <= |s|
    ensures i <= j <= |s|
    ensures j < |s| ==> IsSpace(s[j])
    ensures forall k :: i <= k < j ==> !IsSpace(s[k])
    decreases |s| - i
  {
    if i == |s| || IsSpace(s[i]) then i else WordEnd(s, i + 1)
  }

  /** A word starts at `p`: `s[p]` is not whitespace and nothing but whitespace precedes it. */
  predicate StartsWord(s: string, p: nat)
    requires p < |s|
  {
    !IsSpace(s[p]) && (p == 0 || IsSpace(s[p - 1]))
  }

  /** The positions from `i` on where a word starts, in ascending order. */
  function WordStarts(s: string, i: nat): (ps: seq<nat>)
    requires i <= |s|
    ensures forall k :: 0 <= k < |ps| ==> i <= ps[k] < |s|
    decreases |s| - i
  {
    if i == |s| then []
    else if StartsWord(s, i) then [i] + WordStarts(s, i + 1)
    else WordStarts(s, i + 1)
  }

  /** `WordStarts(s, i)` lists every word start from `i` on, and nothing else, in ascending order. */
  lemma {:induction false} WordStartsAreAllStarts(s: string, i: nat)
    requires i <= |s|
    ensures forall k :: 0 <= k < |WordStarts(s, i)| ==> StartsWord(s, WordStarts(s, i)[k])
    ensures forall k, l :: 0 <= k < l < |WordStarts(s, i)| ==> WordStarts(s, i)[k] < WordStarts(s, i)[l]
    ensures forall p :: i <= p < |s| && StartsWord(s, p) ==> p in WordStarts(s, i)
    decreases |s| - i
  {
    if i < |s| {
      WordStartsAreAllStarts(s, i + 1);
    }
  }

  /** No word starts between `i` and `j`, so the starts from either are the same. */
  lemma {:induction false} NoStartBetween(s: string, i: nat, j: nat)
    requires i <= j <= |s|
    requires forall p :: i <= p < j ==> !StartsWord(s, p)
    ensures WordStarts(s, i) == WordStarts(s, j)
    decreases j - i
  {
    if i < j {
      NoStartBetween(s, i + 1, j);
    }
  }

  /** No word runs across position `i`. */
  predicate Boundary(s: string, i: nat)
    requires i <= |s|
  {
    i == 0 || i == |s| || IsSpace(s[i - 1]) || IsSpace(s[i])
  }

  /** The word of `s` that starts at `p`. */
  function WordAt(s: string, p: nat): string
    requires p <= |s|
  {
    s[p..WordEnd(s, p)]
  }

  /** `s[i:].split()`, from a position where no word runs across. */
  function WordsFrom(s: string, i: nat): (ws: seq<string>)
    requires i <= |s| && Boundary(s, i)
    ensures forall w :: w in ws ==> w != [] && forall k :: 0 <= k < |w| ==> !IsSpace(w[k])
    decreases |s| - i
  {
    if i == |s| then []
    else if IsSpace(s[i]) then WordsFrom(s, i + 1)
    else
      var j := WordEnd(s, i);
      [s[i..j]] + WordsFrom(s, j)
  }

  /** The words from `i` are the maximal non-whitespace runs, one per word start, in order. */
  predicate WordsAreRuns(s: string, i: nat)
    requires i <= |s| && Boundary(s, i)
  {
    var ws, ps := WordsFrom(s, i), WordStarts(s, i);
    |ws| == |ps| && forall k :: 0 <= k < |ws| ==> ws[k] == WordAt(s, ps[k])
  }

  lemma {:induction false} WordsFromAreRuns(s: string, i: nat)
    requires i <= |s| && Boundary(s, i)
    ensures WordsAreRuns(s, i)
    decreases |s| - i
  {
    if i == |s| {
      assert WordsFrom(s, i) == [] && WordStarts(s, i) == [];
    } else if IsSpace(s[i]) {
      WordsFromAreRuns(s, i + 1);
      SkipSpace(s, i);
    } else {
      WordsFromAreRuns(s, WordEnd(s, i));
      SkipWord(s, i);
    }
  }

  /** A whitespace character at `i` adds neither a word nor a word start. */
  lemma SkipSpace(s: string, i: nat)
    requires i < |s| && IsSpace(s[i]) && WordsAreRuns(s, i + 1)
    ensures WordsAreRuns(s, i)
  {
    assert WordStarts(s, i) == WordStarts(s, i + 1);
    assert WordsFrom(s, i) == WordsFrom(s, i + 1);
  }

  /** A word starting at `i` adds itself in front of the words after it. */
  lemma SkipWord(s: string, i: nat)
    requires i < |s| && !IsSpace(s[i]) && Boundary(s, i)
    requires WordsAreRuns(s, WordEnd(s, i))
    ensures WordsAreRuns(s, i)
  {
    var j := WordEnd(s, i);
    NoStartBetween(s, i + 1, j);
    assert WordStarts(s, i) == [i] + WordStarts(s, j);
    assert WordsFrom(s, i) == [s[i..j]] + WordsFrom(s, j);
    ConsRuns(s, i, WordStarts(s, j), WordsFrom(s, j));
  }

  /** Words matched to their starts stay matched with one more word in front. */
  lemma ConsRuns(s: string, p: nat, ps: seq<nat>, ws: seq<string>)
    requires p <= |s| && |ps| == |ws|
    requires forall k :: 0 <= k < |ps| ==> ps[k] <= |s|
    requires forall k :: 0 <= k < |ws| ==> ws[k] == WordAt(s, ps[k])
    ensures forall k :: 0 <= k < |ws| + 1 ==> ([WordAt(s, p)] + ws)[k] == WordAt(s, ([p] + ps)[k])
  {
  }

  /** `s.split()` with no argument: the non-empty whitespace-free words of `s`. */
  function Words(s: string): (ws: seq<string>)
    ensures forall w :: w in ws ==> w != [] && forall k :: 0 <= k < |w| ==> !IsSpace(w[k])
  {
    WordsFrom(s, 0)
  }

  /**
   * The words of `s` are its maximal non-whitespace runs, one for each position
   * where a word starts, in order of position.
   */
  lemma WordsAreMaximalRuns(s: string)
    ensures |Words(s)| == |WordStarts(s, 0)|
    ensures forall k :: 0 <= k < |Words(s)| ==> Words(s)[k] == WordAt(s, WordStarts(s, 0)[k])
  {
    WordsFromAreRuns(s, 0);
  }

  /** Text without upper-case ASCII letters and without surrounding whitespace is its own key. */
  lemma PlainTextUnchanged(s: string)
    requires forall i :: 0 <= i < |s| ==> !('A' <= s[i] <= 'Z')
    requires s == [] || (!IsSpace(s[0]) && !IsSpace(s[|s| - 1]))
    ensures Lower(s) == s && Strip(s) == s
  {
    LowerUnchanged(s);
    assert TrimLeft(s) == s;
    assert TrimRight(s) == s;
  }

  lemma LowerUnchanged(s: string)
    requires forall i :: 0 <= i < |s| ==> !('A' <= s[i] <= 'Z')
    ensures Lower(s) == s
  {
    var r := Lower(s);
    assert forall i :: 0 <= i < |s| ==> r[i] == s[i];
  }
}
