/**
 * The Python `str` operations the record pipeline relies on, over `seq<char>`:
 * substring search (`in`, `find`, `rfind`), `str.replace`, `str.split(sep)`,
 * `sep.join(...)`, `strip`/`lstrip`/`rstrip`, `str(n)` for naturals and
 * right-aligned formatting (`{n:>4}`).
 */
module Text {
  import opened Wrappers

  type String = seq<char>

  /**
   * Python's `str.isspace`, which is also what `strip` removes and what the
   * regex class `\s` matches: tab to carriage return, the four separators
   * U+001C..U+001F, space, U+0085, U+00A0 and the Unicode space separators.
   */
  predicate IsSpace(c: char) {
    || '\t' <= c <= '\r'
    || '\U{001C}' <= c <= ' '
    || c == '\U{0085}' || c == '\U{00A0}' || c == '\U{1680}'
    || '\U{2000}' <= c <= '\U{200A}'
    || c == '\U{2028}' || c == '\U{2029}' || c == '\U{202F}' || c == '\U{205F}' || c == '\U{3000}'
  }

  predicate AllSpace(s: String) {
    forall i :: 0 <= i < |s| ==> IsSpace(s[i])
  }

  predicate StartsWith(s: String, p: String) {
    |p| <= |s| && s[..|p|] == p
  }

  /** `p` occurs in `s` starting at index `i`. */
  predicate OccursAt(s: String, p: String, i: int) {
    0 <= i && i + |p| <= |s| && s[i..i + |p|] == p
  }

  lemma OccursShift(s: String, p: String, j: nat)
    requires |s| > 0
    ensures OccursAt(s, p, j + 1) <==> OccursAt(s[1..], p, j)
  {
    if j + 1 + |p| <= |s| {
      assert s[j + 1..j + 1 + |p|] == s[1..][j..j + |p|];
    }
  }

  /** Occurrences inside a prefix are occurrences in the whole string. */
  lemma OccursInPrefix(s: String, p: String, k: nat, j: int)
    requires k <= |s|
    ensures OccursAt(s[..k], p, j) <==> (OccursAt(s, p, j) && j + |p| <= k)
  {
    if 0 <= j && j + |p| <= k {
      assert s[..k][j..j + |p|] == s[j..j + |p|];
    }
  }

  /** Occurrences inside a suffix are occurrences in the whole string, shifted. */
  lemma OccursInSuffix(s: String, p: String, k: nat, j: int)
    requires k <= |s|
    ensures OccursAt(s[k..], p, j) <==> (OccursAt(s, p, j + k) && j >= 0)
  {
    if 0 <= j && j + k + |p| <= |s| {
      assert s[k..][j..j + |p|] == s[j + k..j + k + |p|];
    }
  }

  /** Python `s.find(p)`: the first index at which `p` occurs, if any. */
  function IndexOf(s: String, p: String): (r: Option<nat>)
    ensures r.Some? ==> OccursAt(s, p, r.value)
    ensures r.Some? ==> forall j :: 0 <= j < r.value ==> !OccursAt(s, p, j)
    ensures r.None? ==> forall j :: !OccursAt(s, p, j)
    decreases |s|
  {
    if StartsWith(s, p) then Some(0)
    else if |s| == 0 then None
    else
      var rest := IndexOf(s[1..], p);
      assert forall j: nat :: OccursAt(s, p, j + 1) <==> OccursAt(s[1..], p, j) by {
        forall j: nat ensures OccursAt(s, p, j + 1) <==> OccursAt(s[1..], p, j) {
          OccursShift(s, p, j);
        }
      }
      assert forall j :: OccursAt(s, p, j) && j > 0 ==> OccursAt(s[1..], p, j - 1);
      match rest
      case None => None
      case Some(k) => Some(k + 1)
  }

  /** A one-character pattern occurs exactly where that character stands. */
  lemma OccursChar(s: String, c: char, j: int)
    ensures OccursAt(s, [c], j) <==> 0 <= j < |s| && s[j] == c
  {
    if 0 <= j < |s| {
      assert s[j..j + 1] == [s[j]];
    }
  }

  lemma ContainsChar(s: String, c: char)
    ensures Contains(s, [c]) <==> c in s
  {
    if c in s {
      var j :| 0 <= j < |s| && s[j] == c;
      OccursChar(s, c, j);
    }
    if Contains(s, [c]) {
      var j :| OccursAt(s, [c], j);
      OccursChar(s, c, j);
    }
  }

  /** An occurrence with none before it is the one `find` reports. */
  lemma FirstOccurrence(s: String, p: String, i: nat)
    requires OccursAt(s, p, i)
    requires forall j :: 0 <= j < i ==> !OccursAt(s, p, j)
    ensures IndexOf(s, p) == Some(i)
  {
  }

  /** An occurrence with none after it is the one `rfind` reports. */
  lemma LastOccurrence(s: String, p: String, i: nat)
    requires OccursAt(s, p, i)
    requires forall j :: i < j ==> !OccursAt(s, p, j)
    ensures LastIndexOf(s, p) == Some(i)
  {
  }

  /** Cutting at the first occurrence: the part before it holds none. */
  lemma FirstSplit(s: String, p: String, i: nat)
    requires |p| > 0 && IndexOf(s, p) == Some(i)
    ensures s == s[..i] + p + s[i + |p|..]
    ensures !Contains(s[..i], p)
  {
    Around(s, p, i);
    NoneInPrefix(s, p, i);
  }

  lemma NoneInPrefix(s: String, p: String, i: nat)
    requires |p| > 0 && i <= |s|
    requires forall j :: 0 <= j < i ==> !OccursAt(s, p, j)
    ensures !Contains(s[..i], p)
  {
    forall k ensures !OccursAt(s[..i], p, k) {
      OccursInPrefix(s, p, i, k);
    }
  }

  /** Cutting at the last occurrence: the part after it holds none. */
  lemma LastSplit(s: String, p: String, i: nat)
    requires |p| > 0 && LastIndexOf(s, p) == Some(i)
    ensures s == s[..i] + p + s[i + |p|..]
    ensures !Contains(s[i + |p|..], p)
  {
    Around(s, p, i);
    NoneInSuffix(s, p, i + |p|);
  }

  lemma NoneInSuffix(s: String, p: String, k: nat)
    requires k <= |s|
    requires forall j :: k <= j ==> !OccursAt(s, p, j)
    ensures !Contains(s[k..], p)
  {
    forall j ensures !OccursAt(s[k..], p, j) {
      OccursInSuffix(s, p, k, j);
    }
  }

  /** Python `p in s`. */
  function Contains(s: String, p: String): (b: bool)
    ensures b <==> exists j :: OccursAt(s, p, j)
  {
    IndexOf(s, p).Some?
  }

  /** The last occurrence of `p` at or before index `i`. */
  function LastIndexFrom(s: String, p: String, i: nat): (r: Option<nat>)
    requires i <= |s|
    ensures r.Some? ==> r.value <= i && OccursAt(s, p, r.value)
    ensures r.Some? ==> forall j :: r.value < j <= i ==> !OccursAt(s, p, j)
    ensures r.None? ==> forall j :: 0 <= j <= i ==> !OccursAt(s, p, j)
    decreases i
  {
    if OccursAt(s, p, i) then Some(i)
    else if i == 0 then None
    else LastIndexFrom(s, p, i - 1)
  }

  /** Python `s.rfind(p)`: the last index at which `p` occurs, if any. */
  function LastIndexOf(s: String, p: String): (r: Option<nat>)
    ensures r.Some? ==> OccursAt(s, p, r.value)
    ensures r.Some? ==> forall j :: r.value < j ==> !OccursAt(s, p, j)
    ensures r.None? ==> forall j :: !OccursAt(s, p, j)
  {
    LastIndexFrom(s, p, |s|)
  }

  /**
   * Python `s.replace(p, q)`: every non-overlapping occurrence of `p`, found
   * left to right, is replaced by `q`; an empty `p` inserts `q` around every
   * character.
   */
  function ReplaceAll(s: String, p: String, q: String): String
  {
    if |p| == 0 then Interleave(s, q) else ReplaceFound(s, p, q)
  }

  /** `s.replace("", q)`: `q` before every character and once more at the end. */
  function Interleave(s: String, q: String): String
  {
    if |s| == 0 then q else q + [s[0]] + Interleave(s[1..], q)
  }

  /** `s.replace(p, q)` for a non-empty `p`. */
  function ReplaceFound(s: String, p: String, q: String): String
    requires |p| > 0
    decreases |s|
  {
    match IndexOf(s, p)
    case None => s
    case Some(i) => s[..i] + q + ReplaceFound(s[i + |p|..], p, q)
  }

  /**
   * Python `s.split(sep)` for a non-empty separator: the pieces between
   * successive left-to-right occurrences of `sep`. No piece contains `sep`.
   */
  function SplitOn(s: String, sep: String): (r: seq<String>)
    requires |sep| > 0
    ensures |r| > 0
    ensures forall k :: 0 <= k < |r| ==> !Contains(r[k], sep)
    decreases |s|
  {
    match IndexOf(s, sep)
    case None => [s]
    case Some(i) =>
      assert !Contains(s[..i], sep) by {
        forall j ensures !OccursAt(s[..i], sep, j) {
          OccursInPrefix(s, sep, i, j);
        }
      }
      [s[..i]] + SplitOn(s[i + |sep|..], sep)
  }

  /** Python `sep.join(xs)`. */
  function Join(xs: seq<String>, sep: String): String
  {
    if |xs| == 0 then []
    else if |xs| == 1 then xs[0]
    else xs[0] + sep + Join(xs[1..], sep)
  }

  /** Splitting and re-joining with the same separator gives the string back. */
  lemma {:induction false} JoinSplitOn(s: String, sep: String)
    requires |sep| > 0
    ensures Join(SplitOn(s, sep), sep) == s
    decreases |s|
  {
    match IndexOf(s, sep)
    case None =>
    case Some(i) =>
      var rest := s[i + |sep|..];
      JoinSplitOn(rest, sep);
      assert SplitOn(s, sep) == [s[..i]] + SplitOn(rest, sep);
      assert s == s[..i] + sep + rest;
  }

  /**
   * `str.replace` is `str.split` followed by `join` with the replacement:
   * the text is cut at every occurrence of `p` (no piece contains `p`) and the
   * same pieces are glued back with `q`.
   */
  lemma ReplaceIsSplitJoin(s: String, p: String, q: String)
    requires |p| > 0
    ensures ReplaceAll(s, p, q) == Join(SplitOn(s, p), q)
  {
    FoundIsSplitJoin(s, p, q);
  }

  lemma {:induction false} FoundIsSplitJoin(s: String, p: String, q: String)
    requires |p| > 0
    ensures ReplaceFound(s, p, q) == Join(SplitOn(s, p), q)
    decreases |s|
  {
    if IndexOf(s, p).Some? {
      var i := IndexOf(s, p).value;
      var rest := s[i + |p|..];
      FoundIsSplitJoin(rest, p, q);
      FoundAt(s, p, q);
      SplitOnAt(s, p);
      JoinCons(s[..i], SplitOn(rest, p), q);
    }
  }

  /** The first step of a split: the text up to the first occurrence, then the rest split. */
  lemma SplitOnAt(s: String, sep: String)
    requires |sep| > 0 && IndexOf(s, sep).Some?
    ensures var i := IndexOf(s, sep).value;
      SplitOn(s, sep) == [s[..i]] + SplitOn(s[i + |sep|..], sep)
  {
  }

  lemma JoinCons(x: String, ys: seq<String>, sep: String)
    requires |ys| > 0
    ensures Join([x] + ys, sep) == x + sep + Join(ys, sep)
  {
    assert ([x] + ys)[1..] == ys;
  }

  /** Replacing a text by itself changes nothing. */
  lemma ReplaceBySelf(s: String, p: String)
    ensures ReplaceAll(s, p, p) == s
  {
    if |p| == 0 {
      InterleaveEmpty(s);
    } else {
      FoundBySelf(s, p);
    }
  }

  lemma {:induction false} InterleaveEmpty(s: String)
    ensures Interleave(s, []) == s
  {
    if |s| > 0 {
      InterleaveEmpty(s[1..]);
      HeadTail(s);
    }
  }

  lemma {:induction false} FoundBySelf(s: String, p: String)
    requires |p| > 0
    ensures ReplaceFound(s, p, p) == s
    decreases |s|
  {
    match IndexOf(s, p)
    case None =>
    case Some(i) =>
      FoundBySelf(s[i + |p|..], p);
      Around(s, p, i);
  }

  lemma InitAppend<T>(a: seq<T>, b: seq<T>)
    requires |b| > 0
    ensures (a + b)[..|a + b| - 1] == a + b[..|b| - 1]
  {
  }

  lemma SnocIndex<T>(a: seq<T>, x: T, k: nat)
    requires k <= |a|
    ensures (a + [x])[k] == if k < |a| then a[k] else x
  {
  }

  /** A text that starts with `a` is `a` followed by the rest. */
  lemma PrefixRest(s: String, a: String)
    requires StartsWith(s, a)
    ensures s == a + s[|a|..]
  {
  }

  lemma Assoc4<T>(a: seq<T>, b: seq<T>, c: seq<T>, d: seq<T>)
    ensures a + (b + (c + d)) == a + b + c + d
  {
  }

  lemma Assoc5<T>(a: seq<T>, b: seq<T>, c: seq<T>, d: seq<T>, e: seq<T>)
    ensures a + (b + (c + (d + e))) == a + b + c + d + e
  {
  }

  lemma AppendEmpty<T>(a: seq<T>)
    ensures a + [] == a
  {
  }

  lemma HeadTail(s: String)
    requires |s| > 0
    ensures s == [s[0]] + s[1..]
  {
  }

  lemma Around(s: String, p: String, i: nat)
    requires OccursAt(s, p, i)
    ensures s == s[..i] + p + s[i + |p|..]
  {
    assert s == s[..i] + s[i..i + |p|] + s[i + |p|..];
  }

  lemma {:induction false} FoundLength(s: String, p: String, q: String)
    requires |p| > 0
    ensures |q| >= |p| ==> |ReplaceFound(s, p, q)| >= |s|
    ensures |q| <= |p| ==> |ReplaceFound(s, p, q)| <= |s|
    decreases |s|
  {
    var r := IndexOf(s, p);
    if r.Some? {
      var i := r.value;
      var rest := s[i + |p|..];
      FoundLength(rest, p, q);
      var tail := ReplaceFound(rest, p, q);
      assert |ReplaceFound(s, p, q)| == i + |q| + |tail|;
      assert |s| == i + |p| + |rest|;
    }
  }

  /**
   * A replacement of a non-empty pattern leaves the text unchanged exactly
   * when the pattern does not occur in it or is replaced by itself.
   */
  lemma ReplaceUnchangedIff(s: String, p: String, q: String)
    requires |p| > 0
    ensures ReplaceAll(s, p, q) == s <==> (!Contains(s, p) || p == q)
  {
    if p == q {
      FoundBySelf(s, p);
    } else if Contains(s, p) {
      FoundChanges(s, p, q);
    }
  }

  lemma FoundChanges(s: String, p: String, q: String)
    requires |p| > 0 && p != q && IndexOf(s, p).Some?
    ensures ReplaceFound(s, p, q) != s
  {
    var i := IndexOf(s, p).value;
    var rest := s[i + |p|..];
    FoundAt(s, p, q);
    Around(s, p, i);
    FoundLength(rest, p, q);
    PieceDiffers(s[..i], p, rest, q, ReplaceFound(rest, p, q));
  }

  /** The first step of a replacement: the text up to the first occurrence, `q`, the rest replaced. */
  lemma FoundAt(s: String, p: String, q: String)
    requires |p| > 0 && IndexOf(s, p).Some?
    ensures var i := IndexOf(s, p).value;
      ReplaceFound(s, p, q) == s[..i] + q + ReplaceFound(s[i + |p|..], p, q)
  {
  }

  lemma PieceDiffers(a: String, p: String, x: String, q: String, y: String)
    requires p != q
    requires |q| >= |p| ==> |y| >= |x|
    requires |q| <= |p| ==> |y| <= |x|
    ensures a + p + x != a + q + y
  {
    if |q| == |p| {
      assert (a + q + y)[|a|..|a| + |q|] == q;
      assert (a + p + x)[|a|..|a| + |p|] == p;
    }
  }

  lemma IndexOfFirstChar(x: String, c: char, rest: String)
    requires c !in x
    ensures IndexOf(x + [c] + rest, [c]) == Some(|x|)
  {
    var s := x + [c] + rest;
    assert OccursAt(s, [c], |x|);
    forall j | 0 <= j < |x| ensures !OccursAt(s, [c], j) {
      assert s[j] == x[j];
    }
  }

  /**
   * Splitting at a one-character separator undoes joining with it, provided
   * no piece contains that character.
   */
  lemma {:induction false} SplitOnJoin(xs: seq<String>, c: char)
    requires |xs| > 0
    requires forall k :: 0 <= k < |xs| ==> c !in xs[k]
    ensures SplitOn(Join(xs, [c]), [c]) == xs
    decreases |xs|
  {
    if |xs| == 1 {
      var x := xs[0];
      forall j | 0 <= j < |x| ensures !OccursAt(x, [c], j) {
        assert x[j..j + 1] == [x[j]];
      }
    } else {
      var rest := Join(xs[1..], [c]);
      SplitOnJoin(xs[1..], c);
      IndexOfFirstChar(xs[0], c, rest);
      var s := xs[0] + [c] + rest;
      assert s[|xs[0]| + 1..] == rest;
      assert s[..|xs[0]|] == xs[0];
    }
  }

  /** Only a separator's own characters can make an occurrence span two joined pieces. */
  lemma {:induction false} JoinFree(xs: seq<String>, c: char, p: String)
    requires |p| > 0 && c !in p
    requires forall k :: 0 <= k < |xs| ==> !Contains(xs[k], p)
    ensures !Contains(Join(xs, [c]), p)
    decreases |xs|
  {
    if |xs| > 1 {
      JoinFree(xs[1..], c, p);
      var x, rest := xs[0], Join(xs[1..], [c]);
      var s := x + [c] + rest;
      assert Join(xs, [c]) == s;
      forall j | 0 <= j && j + |p| <= |s| ensures !OccursAt(s, p, j) {
        if j + |p| <= |x| {
          assert s[j..j + |p|] == x[j..j + |p|];
          assert !OccursAt(x, p, j);
        } else if j <= |x| {
          assert s[j..j + |p|][|x| - j] == c;
        } else {
          assert s[j..j + |p|] == rest[j - |x| - 1..j - |x| - 1 + |p|];
          assert !OccursAt(rest, p, j - |x| - 1);
        }
      }
    }
  }

  /** Python `s.lstrip()`. */
  function LStrip(s: String): (r: String)
    ensures |r| <= |s| && r == s[|s| - |r|..]
    ensures AllSpace(s[..|s| - |r|])
    ensures r == [] || !IsSpace(r[0])
    decreases |s|
  {
    if |s| > 0 && IsSpace(s[0]) then
      var r := LStrip(s[1..]);
      assert s[..|s| - |r|] == [s[0]] + s[1..][..|s| - 1 - |r|];
      r
    else s
  }

  /** Leading whitespace followed by a non-space is exactly what `lstrip` removes. */
  lemma {:induction false} LStripOf(w: String, t: String)
    requires AllSpace(w)
    requires t == [] || !IsSpace(t[0])
    ensures LStrip(w + t) == t
    decreases |w|
  {
    if |w| > 0 {
      assert (w + t)[1..] == w[1..] + t;
      LStripOf(w[1..], t);
    }
  }

  /** The whitespace `lstrip` removes, and the text it keeps. */
  function SplitSpace(s: String): (r: (String, String))
    ensures s == r.0 + r.1 && AllSpace(r.0) && r.1 == LStrip(s)
  {
    var t := LStrip(s);
    assert s == s[..|s| - |t|] + t;
    (s[..|s| - |t|], t)
  }

  /** Python `s.rstrip()`. */
  function RStrip(s: String): (r: String)
    ensures |r| <= |s| && r == s[..|r|]
    ensures AllSpace(s[|r|..])
    ensures r == [] || !IsSpace(r[|r| - 1])
    decreases |s|
  {
    if |s| > 0 && IsSpace(s[|s| - 1]) then
      var r := RStrip(s[..|s| - 1]);
      assert s[|r|..] == s[..|s| - 1][|r|..] + [s[|s| - 1]];
      r
    else s
  }

  /** Python `s.strip()`. */
  function Strip(s: String): String
  {
    RStrip(LStrip(s))
  }

  /** Stripping keeps a middle part: only whitespace is removed, at both ends. */
  lemma StripParts(s: String)
    ensures var r := Strip(s);
      (exists i :: KeptAt(s, r, i)) && (r == [] || (!IsSpace(r[0]) && !IsSpace(r[|r| - 1])))
  {
    var l := LStrip(s);
    var r := RStrip(l);
    StripAt(s, l, r);
    assert KeptAt(s, Strip(s), |s| - |l|);
  }

  /** `r` sits in `s` at index `i` with only whitespace around it. */
  predicate KeptAt(s: String, r: String, i: int) {
    0 <= i && i + |r| <= |s| && s[i..i + |r|] == r && AllSpace(s[..i]) && AllSpace(s[i + |r|..])
  }

  lemma StripAt(s: String, l: String, r: String)
    requires l == LStrip(s) && r == RStrip(l)
    ensures KeptAt(s, r, |s| - |l|)
    ensures r == [] || (!IsSpace(r[0]) && !IsSpace(r[|r| - 1]))
  {
    PrefixOfSuffix(s, l, r);
  }

  lemma PrefixOfSuffix(s: String, l: String, r: String)
    requires |l| <= |s| && l == s[|s| - |l|..]
    requires |r| <= |l| && r == l[..|r|]
    ensures s[|s| - |l|..|s| - |l| + |r|] == r
    ensures s[|s| - |l| + |r|..] == l[|r|..]
  {
  }

  function Repeat(c: char, n: nat): (r: String)
    ensures |r| == n
    ensures forall i :: 0 <= i < n ==> r[i] == c
  {
    if n == 0 then [] else Repeat(c, n - 1) + [c]
  }

  /** Python `f"{s:>w}"`: right-aligned in a field of width `w`, never cut. */
  function PadLeft(s: String, w: nat): (r: String)
    ensures |r| == if |s| >= w then |s| else w
    ensures r[|r| - |s|..] == s
    ensures AllSpace(r[..|r| - |s|]) && forall i :: 0 <= i < |r| - |s| ==> r[i] == ' '
  {
    if |s| >= w then s else Repeat(' ', w - |s|) + s
  }

  /**
   * The regex class `\d`: a Unicode decimal digit (general category Nd, as in
   * the Unicode 15.0 database), one run of code points per script.
   */
  predicate IsDecimal(c: char) {
    || '0' <= c <= '9' || '\U{0660}' <= c <= '\U{0669}' || '\U{06F0}' <= c <= '\U{06F9}'
    || '\U{07C0}' <= c <= '\U{07C9}' || '\U{0966}' <= c <= '\U{096F}' || '\U{09E6}' <= c <= '\U{09EF}'
    || '\U{0A66}' <= c <= '\U{0A6F}' || '\U{0AE6}' <= c <= '\U{0AEF}' || '\U{0B66}' <= c <= '\U{0B6F}'
    || '\U{0BE6}' <= c <= '\U{0BEF}' || '\U{0C66}' <= c <= '\U{0C6F}' || '\U{0CE6}' <= c <= '\U{0CEF}'
    || '\U{0D66}' <= c <= '\U{0D6F}' || '\U{0DE6}' <= c <= '\U{0DEF}' || '\U{0E50}' <= c <= '\U{0E59}'
    || '\U{0ED0}' <= c <= '\U{0ED9}' || '\U{0F20}' <= c <= '\U{0F29}' || '\U{1040}' <= c <= '\U{1049}'
    || '\U{1090}' <= c <= '\U{1099}' || '\U{17E0}' <= c <= '\U{17E9}' || '\U{1810}' <= c <= '\U{1819}'
    || '\U{1946}' <= c <= '\U{194F}' || '\U{19D0}' <= c <= '\U{19D9}' || '\U{1A80}' <= c <= '\U{1A89}'
    || '\U{1A90}' <= c <= '\U{1A99}' || '\U{1B50}' <= c <= '\U{1B59}' || '\U{1BB0}' <= c <= '\U{1BB9}'
    || '\U{1C40}' <= c <= '\U{1C49}' || '\U{1C50}' <= c <= '\U{1C59}' || '\U{A620}' <= c <= '\U{A629}'
    || '\U{A8D0}' <= c <= '\U{A8D9}' || '\U{A900}' <= c <= '\U{A909}' || '\U{A9D0}' <= c <= '\U{A9D9}'
    || '\U{A9F0}' <= c <= '\U{A9F9}' || '\U{AA50}' <= c <= '\U{AA59}' || '\U{ABF0}' <= c <= '\U{ABF9}'
    || '\U{FF10}' <= c <= '\U{FF19}' || '\U{104A0}' <= c <= '\U{104A9}' || '\U{10D30}' <= c <= '\U{10D39}'
    || '\U{11066}' <= c <= '\U{1106F}' || '\U{110F0}' <= c <= '\U{110F9}' || '\U{11136}' <= c <= '\U{1113F}'
    || '\U{111D0}' <= c <= '\U{111D9}' || '\U{112F0}' <= c <= '\U{112F9}' || '\U{11450}' <= c <= '\U{11459}'
    || '\U{114D0}' <= c <= '\U{114D9}' || '\U{11650}' <= c <= '\U{11659}' || '\U{116C0}' <= c <= '\U{116C9}'
    || '\U{11730}' <= c <= '\U{11739}' || '\U{118E0}' <= c <= '\U{118E9}' || '\U{11950}' <= c <= '\U{11959}'
    || '\U{11C50}' <= c <= '\U{11C59}' || '\U{11D50}' <= c <= '\U{11D59}' || '\U{11DA0}' <= c <= '\U{11DA9}'
    || '\U{11F50}' <= c <= '\U{11F59}' || '\U{16A60}' <= c <= '\U{16A69}' || '\U{16AC0}' <= c <= '\U{16AC9}'
    || '\U{16B50}' <= c <= '\U{16B59}' || '\U{1D7CE}' <= c <= '\U{1D7FF}' || '\U{1E140}' <= c <= '\U{1E149}'
    || '\U{1E2F0}' <= c <= '\U{1E2F9}' || '\U{1E4F0}' <= c <= '\U{1E4F9}' || '\U{1E950}' <= c <= '\U{1E959}'
    || '\U{1FBF0}' <= c <= '\U{1FBF9}'
  }

  /** An ASCII digit, the only kind `str(n)` writes. */
  predicate IsDigit(c: char) {
    '0' <= c <= '9'
  }

  function DigitChar(d: nat): (c: char)
    requires d < 10
    ensures IsDigit(c) && c as int - '0' as int == d
  {
    ('0' as int + d) as char
  }

  /** Python `str(n)` for a natural number: its decimal digits. */
  function NatToString(n: nat): (r: String)
    ensures |r| > 0 && forall i :: 0 <= i < |r| ==> IsDigit(r[i])
    ensures r[0] == '0' ==> n == 0 && r == "0"
    decreases n
  {
    if n < 10 then [DigitChar(n)] else NatToString(n / 10) + [DigitChar(n % 10)]
  }

  /** The value of a string of decimal digits (Python `int(s)`). */
  function DigitsValue(s: String): nat
    requires forall i :: 0 <= i < |s| ==> IsDigit(s[i])
  {
    if |s| == 0 then 0
    else
      var d := s[|s| - 1];
      assert IsDigit(d);
      10 * DigitsValue(s[..|s| - 1]) + (d as int - '0' as int)
  }

  /** `int(str(n)) == n`. */
  lemma {:induction false} NatToStringRoundTrip(n: nat)
    ensures DigitsValue(NatToString(n)) == n
    decreases n
  {
    if n >= 10 {
      NatToStringRoundTrip(n / 10);
      var r := NatToString(n);
      assert r[..|r| - 1] == NatToString(n / 10);
    }
  }

  /** Distinct naturals print differently. */
  lemma NatToStringInjective(a: nat, b: nat)
    requires NatToString(a) == NatToString(b)
    ensures a == b
  {
    NatToStringRoundTrip(a);
    NatToStringRoundTrip(b);
  }
}
