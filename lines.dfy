// The body of a record as the constructor reads it (consort/contingency.py:19,
// 33-41): each raw body line becomes a (statement, comment) pair split at the
// first comment opener, `lines_str` joins the statements, and the trimmed text
// drops blank-introduced trailing comments from every terminated line.
module Lines {
  import opened Wrappers
  import opened Text

  const OPENER: String := "/*"

  // ---------------------------------------------------------------- one body line

  /**
   * `re.split(r'\s*\/\*\s*', st, maxsplit=1)` padded with `''`: the text
   * before the whitespace that leads into the first opener, and the text after
   * the whitespace that follows it.
   */
  function SplitComment(st: String): (String, String)
  {
    match IndexOf(st, OPENER)
    case None => (st, "")
    case Some(c) => (RStrip(st[..c]), LStrip(st[c + 2..]))
  }

  /**
   * The statement part holds no opener; without an opener nothing is split
   * off; with one, only whitespace and the opener are lost between the parts.
   */
  lemma SplitCommentSpec(st: String)
    ensures var r := SplitComment(st);
      && !Contains(r.0, OPENER)
      && (!Contains(st, OPENER) ==> r == (st, ""))
      && (Contains(st, OPENER) ==>
        exists w1, w2 :: AllSpace(w1) && AllSpace(w2) && st == r.0 + w1 + OPENER + w2 + r.1)
      && (r.1 == [] || !IsSpace(r.1[0]))
      && ('\n' !in st ==> '\n' !in r.0 && '\n' !in r.1)
  {
    if IndexOf(st, OPENER).Some? {
      SplitCommentFound(st);
    }
  }

  lemma SplitCommentFound(st: String)
    requires IndexOf(st, OPENER).Some?
    ensures var r := SplitComment(st);
      && !Contains(r.0, OPENER)
      && (exists w1, w2 :: AllSpace(w1) && AllSpace(w2) && st == r.0 + w1 + OPENER + w2 + r.1)
      && ('\n' !in st ==> '\n' !in r.0 && '\n' !in r.1)
  {
    var c := IndexOf(st, OPENER).value;
    var stmt, comment := RStrip(st[..c]), LStrip(st[c + 2..]);
    SplitCommentIs(st);
    SplitCommentAt(st);
    JoinedBy(st, stmt, st[|stmt|..c], st[c + 2..|st| - |comment|], comment);
  }

  lemma SplitCommentIs(st: String)
    requires IndexOf(st, OPENER).Some?
    ensures var c := IndexOf(st, OPENER).value;
      SplitComment(st).0 == RStrip(st[..c]) && SplitComment(st).1 == LStrip(st[c + 2..])
  {
  }

  lemma JoinedBy(st: String, a: String, w1: String, w2: String, b: String)
    requires AllSpace(w1) && AllSpace(w2) && st == a + w1 + OPENER + w2 + b
    ensures exists w1, w2 :: AllSpace(w1) && AllSpace(w2) && st == a + w1 + OPENER + w2 + b
  {
  }

  lemma SplitCommentAt(st: String)
    requires IndexOf(st, OPENER).Some?
    ensures var c := IndexOf(st, OPENER).value;
      var stmt, comment := RStrip(st[..c]), LStrip(st[c + 2..]);
      !Contains(stmt, OPENER)
      && st == stmt + st[|stmt|..c] + OPENER + st[c + 2..|st| - |comment|] + comment
      && AllSpace(st[|stmt|..c]) && AllSpace(st[c + 2..|st| - |comment|])
      && ('\n' !in st ==> '\n' !in stmt && '\n' !in comment)
  {
    var c := IndexOf(st, OPENER).value;
    NoneInPrefix(st, OPENER, c);
    var stmt := RStrip(st[..c]);
    PrefixFree(st[..c], stmt);
    CommentParts(st, c, stmt, LStrip(st[c + 2..]));
  }

  lemma PrefixFree(s: String, t: String)
    requires !Contains(s, OPENER) && |t| <= |s| && t == s[..|t|]
    ensures !Contains(t, OPENER)
  {
    forall j ensures !OccursAt(t, OPENER, j) {
      OccursInPrefix(s, OPENER, |t|, j);
    }
  }

  lemma CommentParts(st: String, c: nat, stmt: String, comment: String)
    requires OccursAt(st, OPENER, c)
    requires stmt == RStrip(st[..c]) && comment == LStrip(st[c + 2..])
    ensures st == stmt + st[|stmt|..c] + OPENER + st[c + 2..|st| - |comment|] + comment
    ensures AllSpace(st[|stmt|..c]) && AllSpace(st[c + 2..|st| - |comment|])
    ensures '\n' !in st ==> '\n' !in stmt && '\n' !in comment
  {
    var p, q := |stmt|, |st| - |comment|;
    TakeSlices(st, c, p);
    DropSlices(st, c + 2, q - c - 2);
    CommentJoin(st, c, p, q);
    CommentSpaces(st, c, p, q);
    SliceChars(st, p, q, '\n');
  }

  lemma CommentSpaces(st: String, c: nat, p: nat, q: nat)
    requires p <= c && c + 2 <= q <= |st|
    requires AllSpace(st[..c][p..]) && AllSpace(st[c + 2..][..q - c - 2])
    ensures AllSpace(st[p..c]) && AllSpace(st[c + 2..q])
  {
    TakeSlices(st, c, p);
    DropSlices(st, c + 2, q - c - 2);
  }

  lemma CommentJoin(st: String, c: nat, p: nat, q: nat)
    requires OccursAt(st, OPENER, c) && p <= c && c + 2 <= q <= |st|
    ensures st == st[..p] + st[p..c] + OPENER + st[c + 2..q] + st[q..]
  {
    Slices(st, p, c, c + 2, q);
  }

  lemma TakeSlices(s: String, c: nat, p: nat)
    requires p <= c <= |s|
    ensures s[..c][..p] == s[..p] && s[..c][p..] == s[p..c]
  {
  }

  lemma DropSlices(s: String, c: nat, n: nat)
    requires c + n <= |s|
    ensures s[c..][..n] == s[c..c + n] && s[c..][n..] == s[c + n..]
  {
  }

  /** A string is the concatenation of its slices. */
  lemma Slices(st: String, p: nat, i: nat, j: nat, q: nat)
    requires p <= i <= j <= q <= |st|
    ensures st == st[..p] + st[p..i] + st[i..j] + st[j..q] + st[q..]
  {
    assert st[..i] == st[..p] + st[p..i];
    assert st[j..] == st[j..q] + st[q..];
    assert st == st[..i] + st[i..j] + st[j..];
  }

  lemma SliceChars(st: String, p: nat, q: nat, ch: char)
    requires p <= q <= |st|
    ensures ch !in st ==> ch !in st[..p] && ch !in st[q..]
  {
    assert forall k :: 0 <= k < p ==> st[..p][k] == st[k];
    assert forall k :: 0 <= k < |st| - q ==> st[q..][k] == st[q + k];
  }

  /** A statement with no opener, its spaces, the opener and a comment split back apart. */
  lemma SplitCommentOf(stmt: String, w1: String, w2: String, comment: String)
    requires !Contains(stmt, OPENER) && (stmt == [] || !IsSpace(stmt[|stmt| - 1]))
    requires AllSpace(w1) && AllSpace(w2)
    requires comment == [] || !IsSpace(comment[0])
    ensures SplitComment(stmt + w1 + OPENER + w2 + comment) == (stmt, comment)
  {
    var st := stmt + w1 + OPENER + w2 + comment;
    var c := |stmt| + |w1|;
    FirstOpener(stmt, w1, w2 + comment);
    assert st == stmt + w1 + OPENER + (w2 + comment);
    assert st[..c] == stmt + w1;
    RStripOf(stmt, w1);
    assert st[c + 2..] == w2 + comment;
    LStripOf(w2, comment);
  }

  /** The opener after a statement without one and its spaces is the first. */
  lemma FirstOpener(stmt: String, w1: String, tail: String)
    requires !Contains(stmt, OPENER) && AllSpace(w1)
    ensures IndexOf(stmt + w1 + OPENER + tail, OPENER) == Some(|stmt| + |w1|)
  {
    var st := stmt + w1 + OPENER + tail;
    var c := |stmt| + |w1|;
    assert st[c..c + 2] == OPENER;
    forall j | 0 <= j < c ensures !OccursAt(st, OPENER, j) {
      OpenerNotAt(stmt, w1, tail, j);
    }
    FirstOccurrence(st, OPENER, c);
  }

  lemma OpenerNotAt(stmt: String, w1: String, tail: String, j: nat)
    requires !Contains(stmt, OPENER) && AllSpace(w1) && j < |stmt| + |w1|
    ensures !OccursAt(stmt + w1 + OPENER + tail, OPENER, j)
  {
    var st := stmt + w1 + OPENER + tail;
    if j < |stmt| - 1 {
      assert st[j..j + 2] == stmt[j..j + 2];
      assert !OccursAt(stmt, OPENER, j);
    } else if j >= |stmt| {
      assert st[j] == w1[j - |stmt|];
    } else {
      assert st[j + 1] == (w1 + OPENER)[0];
    }
  }

  lemma RStripOf(t: String, w: String)
    requires AllSpace(w)
    requires t == [] || !IsSpace(t[|t| - 1])
    ensures RStrip(t + w) == t
    decreases |w|
  {
    if |w| > 0 {
      InitAppend(t, w);
      RStripOf(t, w[..|w| - 1]);
    } else {
      AppendEmpty(t);
    }
  }

  /** `line.strip()` split at its first opener: one entry of `self.lines`. */
  function StatementPair(line: String): (String, String)
  {
    SplitComment(Strip(line))
  }

  /** The statement holds no opener, and neither part gains a line break. */
  lemma StatementPairFacts(line: String)
    ensures !Contains(StatementPair(line).0, OPENER)
    ensures '\n' !in line ==> '\n' !in StatementPair(line).0 && '\n' !in StatementPair(line).1
  {
    StripChars(line);
    SplitCommentSpec(Strip(line));
  }

  lemma StripChars(line: String)
    ensures '\n' !in line ==> '\n' !in Strip(line)
  {
    var l := LStrip(line);
    var r := RStrip(l);
    PrefixOfSuffix(line, l, r);
  }

  // ---------------------------------------------------------------- the body

  /**
   * The loop `for line in m[9].split('\n'): if line: ...`: every raw line that
   * is not empty gives one pair, in order. A line of spaces only is not empty
   * and gives the pair `("", "")`.
   */
  function Pairs(raws: seq<String>): (r: seq<(String, String)>)
    ensures |r| <= |raws|
  {
    KeepMap(raws, StatementPair)
  }

  /** `f(line)` for every line that is not empty, in order. */
  function KeepMap<T>(raws: seq<String>, f: String -> T): (r: seq<T>)
    ensures |r| <= |raws|
  {
    if raws == [] then []
    else
      var init, last := raws[..|raws| - 1], raws[|raws| - 1];
      KeepMap(init, f) + (if last != "" then [f(last)] else [])
  }

  /** The pairs of two runs of lines are the pairs of each. */
  lemma PairsAppend(a: seq<String>, b: seq<String>)
    ensures Pairs(a + b) == Pairs(a) + Pairs(b)
  {
    KeepMapAppend(a, b, StatementPair);
  }

  lemma {:induction false} KeepMapAppend<T>(a: seq<String>, b: seq<String>, f: String -> T)
    ensures KeepMap(a + b, f) == KeepMap(a, f) + KeepMap(b, f)
    decreases |b|
  {
    if b == [] {
      AppendEmpty(a);
    } else {
      var b' := b[..|b| - 1];
      InitAppend(a, b);
      KeepMapAppend(a, b', f);
    }
  }

  /** When no raw line is empty, each gives its pair, in order. */
  lemma PairsOfNonEmpty(raws: seq<String>)
    requires forall j :: 0 <= j < |raws| ==> raws[j] != ""
    ensures |Pairs(raws)| == |raws|
    ensures forall k :: 0 <= k < |raws| ==> Pairs(raws)[k] == StatementPair(raws[k])
  {
    KeepMapOfNonEmpty(raws, StatementPair);
  }

  lemma {:induction false} KeepMapOfNonEmpty<T>(raws: seq<String>, f: String -> T)
    requires forall j :: 0 <= j < |raws| ==> raws[j] != ""
    ensures |KeepMap(raws, f)| == |raws|
    ensures forall k :: 0 <= k < |raws| ==> KeepMap(raws, f)[k] == f(raws[k])
    decreases |raws|
  {
    if raws != [] {
      var init := raws[..|raws| - 1];
      KeepMapOfNonEmpty(init, f);
      forall k | 0 <= k < |init| ensures raws[k] == init[k] {
      }
    }
  }

  /** Empty raw lines give no pairs. */
  lemma PairsOfEmpty(raws: seq<String>)
    requires forall j :: 0 <= j < |raws| ==> raws[j] == ""
    ensures Pairs(raws) == []
  {
    KeepMapOfEmpty(raws, StatementPair);
  }

  lemma {:induction false} KeepMapOfEmpty<T>(raws: seq<String>, f: String -> T)
    requires forall j :: 0 <= j < |raws| ==> raws[j] == ""
    ensures KeepMap(raws, f) == []
    decreases |raws|
  {
    if raws != [] {
      KeepMapOfEmpty(raws[..|raws| - 1], f);
    }
  }

  /** An empty raw line leaves no trace. */
  lemma PairsSkipEmpty(a: seq<String>, b: seq<String>)
    ensures Pairs(a + [""] + b) == Pairs(a + b)
  {
    KeepMapAppend(a + [""], b, StatementPair);
    KeepMapAppend(a, [""], StatementPair);
    KeepMapAppend(a, b, StatementPair);
  }

  /** The statement parts, in order. */
  function Statements(pairs: seq<(String, String)>): (r: seq<String>)
    ensures |r| == |pairs| && forall k :: 0 <= k < |pairs| ==> r[k] == pairs[k].0
  {
    seq(|pairs|, k requires 0 <= k < |pairs| => pairs[k].0)
  }

  /** `'\n'.join(x[0] for x in self.lines)`. */
  function LinesStr(pairs: seq<(String, String)>): String {
    Join(Statements(pairs), "\n")
  }

  /** No comment survives into `lines_str`. */
  lemma LinesStrHasNoComment(raws: seq<String>)
    ensures !Contains(LinesStr(Pairs(raws)), OPENER)
  {
    var ps := Pairs(raws);
    forall k | 0 <= k < |ps| ensures !Contains(Statements(ps)[k], OPENER) {
      PairsElement(raws, k);
      var j :| 0 <= j < |raws| && raws[j] != "" && ps[k] == StatementPair(raws[j]);
      StatementPairFacts(raws[j]);
    }
    JoinFree(Statements(ps), '\n', OPENER);
  }

  /** Every pair comes from a raw line that is not empty. */
  lemma PairsElement(raws: seq<String>, k: int)
    requires 0 <= k < |Pairs(raws)|
    ensures exists j :: 0 <= j < |raws| && raws[j] != "" && Pairs(raws)[k] == StatementPair(raws[j])
  {
    KeepMapElement(raws, StatementPair, k);
  }

  lemma {:induction false} KeepMapElement<T>(raws: seq<String>, f: String -> T, k: int)
    requires 0 <= k < |KeepMap(raws, f)|
    ensures exists j :: 0 <= j < |raws| && raws[j] != "" && KeepMap(raws, f)[k] == f(raws[j])
    decreases |raws|
  {
    var init := raws[..|raws| - 1];
    if k < |KeepMap(init, f)| {
      KeepMapElement(init, f, k);
      var j :| 0 <= j < |init| && init[j] != "" && KeepMap(init, f)[k] == f(init[j]);
      assert raws[j] == init[j];
    } else {
      assert KeepMap(raws, f)[k] == f(raws[|raws| - 1]);
    }
  }

  /**
   * Splitting `lines_str` at line breaks gives back the statements, in order,
   * when the body lines hold no line break (they come from `split('\n')`).
   */
  lemma LinesStrSplits(raws: seq<String>)
    requires forall j :: 0 <= j < |raws| ==> '\n' !in raws[j]
    requires |Pairs(raws)| > 0
    ensures SplitOn(LinesStr(Pairs(raws)), "\n") == Statements(Pairs(raws))
  {
    var ps := Pairs(raws);
    forall k | 0 <= k < |ps| ensures '\n' !in Statements(ps)[k] {
      PairsElement(raws, k);
      var j :| 0 <= j < |raws| && raws[j] != "" && ps[k] == StatementPair(raws[j]);
      StatementPairFacts(raws[j]);
    }
    SplitOnJoin(Statements(ps), '\n');
  }

  // ---------------------------------------------------------------- trimmed text

  /** The class `[ \t]`. */
  predicate IsBlank(c: char) {
    c == ' ' || c == '\t'
  }

  /** The longest prefix that does not end in a blank. */
  function RStripBlank(s: String): (r: String)
    ensures |r| <= |s| && r == s[..|r|]
    ensures forall k :: |r| <= k < |s| ==> IsBlank(s[k])
    ensures r == [] || !IsBlank(r[|r| - 1])
    decreases |s|
  {
    if |s| > 0 && IsBlank(s[|s| - 1]) then RStripBlank(s[..|s| - 1]) else s
  }

  /** `[ \t]+\/\*` can start its opener at `c`: an opener right after a blank. */
  predicate CutAt(l: String, c: int) {
    0 < c && OccursAt(l, OPENER, c) && IsBlank(l[c - 1])
  }

  /** The first place at or after `k` where an opener follows a blank. */
  function FirstCut(l: String, k: nat): (r: Option<nat>)
    requires forall j :: j < k ==> !CutAt(l, j)
    ensures r.Some? ==> CutAt(l, r.value) && forall j :: j < r.value ==> !CutAt(l, j)
    ensures r.None? ==> forall j :: !CutAt(l, j)
    decreases |l| - k
  {
    if k + |OPENER| > |l| then None
    else if CutAt(l, k) then Some(k)
    else FirstCut(l, k + 1)
  }

  /**
   * One line (without its line break) after `re.sub(r'[ \t]+\/\*.*\n', '\n', ...)`:
   * cut from the start of the blank run before the first opener that follows
   * a blank.
   */
  function TrimLine(l: String): (r: String)
    ensures |r| <= |l| && r == l[..|r|]
    ensures forall j :: !CutAt(r, j)
  {
    match FirstCut(l, 0)
    case None => l
    case Some(c) =>
      var r := RStripBlank(l[..c]);
      assert r == l[..|r|];
      forall j ensures !CutAt(r, j) {
        if j < c {
          NoCutInPrefix(l, |r|, j);
        }
      }
      r
  }

  /** A line with no blank-led opener is left alone. */
  lemma TrimLineUncut(l: String)
    requires forall j :: !CutAt(l, j)
    ensures TrimLine(l) == l
  {
  }

  /**
   * The trimmed record text (consort/contingency.py:19). A match needs its
   * line break, so the last, unterminated line is never trimmed.
   */
  function TrimComments(s: String): (r: String)
    decreases |s|
  {
    match IndexOf(s, "\n")
    case None => s
    case Some(i) => TrimLine(s[..i]) + "\n" + TrimComments(s[i + 1..])
  }

  /** Trimming twice is trimming once. */
  lemma {:induction false} TrimCommentsIdempotent(s: String)
    ensures TrimComments(TrimComments(s)) == TrimComments(s)
    decreases |s|
  {
    match IndexOf(s, "\n")
    case None =>
    case Some(i) =>
      var l := s[..i];
      var t := TrimLine(l);
      NoBreakBefore(s, i);
      assert '\n' !in t;
      IndexOfFirstChar(t, '\n', TrimComments(s[i + 1..]));
      var u := t + "\n" + TrimComments(s[i + 1..]);
      assert u[..|t|] == t && u[|t| + 1..] == TrimComments(s[i + 1..]);
      TrimLineUncut(t);
      TrimCommentsIdempotent(s[i + 1..]);
  }

  lemma NoBreakBefore(s: String, i: nat)
    requires IndexOf(s, "\n") == Some(i)
    ensures '\n' !in s[..i]
  {
    forall j | 0 <= j < i ensures s[j] != '\n' {
      OccursChar(s, '\n', j);
    }
  }

  /** Trimming keeps every line break and every line it finds no comment on. */
  lemma {:induction false} TrimCommentsUncut(s: String)
    requires forall j :: !CutAt(s, j)
    ensures TrimComments(s) == s
    decreases |s|
  {
    match IndexOf(s, "\n")
    case None =>
    case Some(i) =>
      FirstSplit(s, "\n", i);
      forall j ensures !CutAt(s[..i], j) {
        NoCutInPrefix(s, i, j);
      }
      var rest := s[i + 1..];
      forall j ensures !CutAt(rest, j) {
        NoCutInSuffix(s, i + 1, j);
      }
      TrimCommentsUncut(rest);
  }

  lemma NoCutInPrefix(l: String, k: nat, j: int)
    requires k <= |l| && !CutAt(l, j)
    ensures !CutAt(l[..k], j)
  {
    if 0 < j && j + 2 <= k {
      assert l[..k][j..j + 2] == l[j..j + 2];
    }
  }

  lemma NoCutInSuffix(l: String, k: nat, j: int)
    requires k <= |l| && !CutAt(l, k + j)
    ensures !CutAt(l[k..], j)
  {
    if 0 < j && k + j + 2 <= |l| {
      assert l[k..][j..j + 2] == l[k + j..k + j + 2];
    }
  }
}
