// The header grammar of one contingency record (the `big_regex` of
// consort/contingency.py), read line by line:
//
//   /* Contingency '<name>'
//   /* StartDate: <date>; StopDate: <date>;
//   /* Submitter: <submitter>; NERCCategory: <nerc>; ERCOTCategory: <ercot>;
//   <blanks>CONTINGENCY '<id>'<trail>[/* <id comment>]
//   <body lines>
//   <blanks>END
//   <anything>
//
// `Parse` decides each field the way the regular expression's greedy and lazy
// groups do on such a text, `Render` rebuilds the text from its parts, and the
// two are proved inverse on well-formed parts.
module Header {
  import opened Wrappers
  import opened Text

  const NAME_OPEN: String := "/* Contingency '"
  const START_OPEN: String := "/* StartDate: "
  const STOP_SEP: String := "; StopDate: "
  const SUBMITTER_OPEN: String := "/* Submitter: "
  const NERC_SEP: String := "; NERCCategory: "
  const ERCOT_SEP: String := "; ERCOTCategory: "
  const DECL_OPEN: String := "CONTINGENCY '"
  const COMMENT_OPEN: String := "/* "
  const END_LINE: String := "END\n"

  /** The regular expression's nine groups. */
  datatype Fields = Fields(
    name: String,
    startDate: String,
    stopDate: String,
    submitter: String,
    nercCat: String,
    ercotCat: String,
    id: String,
    idComment: String,
    body: String)

  /** The text the groups do not capture, needed to rebuild the record. */
  datatype Layout = Layout(
    declIndent: String,   // whitespace (line breaks included) before CONTINGENCY
    trail: String,        // text after the id's closing quote, before any comment
    hasComment: bool,     // whether "/* " follows on the declaration line
    endIndent: String,    // whitespace before END
    rest: String)         // whatever follows "END\n"; `re.match` ignores it

  datatype Match = Match(fields: Fields, layout: Layout)

  /** The declaration line, without its line break. */
  datatype Decl = Decl(indent: String, id: String, trail: String, hasComment: bool, comment: String)

  // ---------------------------------------------------------------- lines

  /** The text before the first line break and the text after it. */
  function SplitLine(s: String): (r: Option<(String, String)>)
    ensures r.Some? ==> '\n' !in r.value.0 && s == r.value.0 + "\n" + r.value.1
    ensures r.None? <==> '\n' !in s
  {
    match IndexOf(s, "\n")
    case None =>
      assert '\n' !in s by {
        forall j | 0 <= j < |s| ensures s[j] != '\n' {
          OccursChar(s, '\n', j);
        }
      }
      None
    case Some(i) =>
      OccursChar(s, '\n', i);
      assert '\n' !in s[..i] by {
        forall j | 0 <= j < i ensures s[j] != '\n' {
          OccursChar(s, '\n', j);
        }
      }
      assert s == s[..i] + "\n" + s[i + 1..];
      Some((s[..i], s[i + 1..]))
  }

  lemma SplitLineOf(a: String, b: String)
    requires '\n' !in a
    ensures SplitLine(a + "\n" + b) == Some((a, b))
  {
    IndexOfFirstChar(a, '\n', b);
    var s := a + "\n" + b;
    assert s[..|a|] == a && s[|a| + 1..] == b;
  }

  // ---------------------------------------------------------------- line 1

  function NameLine(name: String): String {
    NAME_OPEN + name + "'"
  }

  /** `/\* Contingency '(.*)'`: the name runs to the quote that ends the line. */
  function ParseNameLine(l: String): (r: Option<String>)
    ensures r.Some? ==> l == NameLine(r.value)
  {
    if StartsWith(l, NAME_OPEN) && |l| > |NAME_OPEN| && l[|l| - 1] == '\'' then
      assert l == NAME_OPEN + l[|NAME_OPEN|..|l| - 1] + "'";
      Some(l[|NAME_OPEN|..|l| - 1])
    else None
  }

  lemma ParseNameLineOf(name: String)
    ensures ParseNameLine(NameLine(name)) == Some(name)
  {
    var l := NameLine(name);
    assert l[..|NAME_OPEN|] == NAME_OPEN;
    assert l[|NAME_OPEN|..|l| - 1] == name;
  }

  // ---------------------------------------------------------------- line 2

  /** The class `[\d/]`. */
  predicate IsDateChar(c: char) {
    IsDecimal(c) || c == '/'
  }

  predicate AllDate(s: String) {
    forall i :: 0 <= i < |s| ==> IsDateChar(s[i])
  }

  /** `[\d/]*`: the longest prefix of date characters. */
  function DateRun(s: String): (r: String)
    ensures |r| <= |s| && r == s[..|r|] && AllDate(r)
    ensures |r| < |s| ==> !IsDateChar(s[|r|])
  {
    if |s| > 0 && IsDateChar(s[0]) then [s[0]] + DateRun(s[1..]) else []
  }

  lemma DateRunOf(d: String, t: String)
    requires AllDate(d)
    requires t == [] || !IsDateChar(t[0])
    ensures DateRun(d + t) == d
  {
    var s := d + t;
    var r := DateRun(s);
    assert forall i :: 0 <= i < |d| ==> s[i] == d[i];
    assert |d| < |s| ==> s[|d|] == t[0];
    assert |r| == |d|;
    assert r == s[..|d|] == d;
  }

  function DateLine(start: String, stop: String): String {
    START_OPEN + start + STOP_SEP + stop + ";"
  }

  function ParseDateLine(l: String): (r: Option<(String, String)>)
    ensures r.Some? ==> AllDate(r.value.0) && AllDate(r.value.1)
    ensures r.Some? ==> l == DateLine(r.value.0, r.value.1)
  {
    if !StartsWith(l, START_OPEN) then None
    else
      var p := l[|START_OPEN|..];
      var d1 := DateRun(p);
      var q := p[|d1|..];
      if !StartsWith(q, STOP_SEP) then None
      else
        var t := q[|STOP_SEP|..];
        var d2 := DateRun(t);
        if t[|d2|..] == ";" then
          PrefixRest(l, START_OPEN);
          PrefixRest(p, d1);
          PrefixRest(q, STOP_SEP);
          PrefixRest(t, d2);
          Assoc5(START_OPEN, d1, STOP_SEP, d2, ";");
          Some((d1, d2))
        else None
  }

  lemma ParseDateLineOf(start: String, stop: String)
    requires AllDate(start) && AllDate(stop)
    ensures ParseDateLine(DateLine(start, stop)) == Some((start, stop))
  {
    var l := DateLine(start, stop);
    assert l[..|START_OPEN|] == START_OPEN;
    var p := l[|START_OPEN|..];
    assert p == start + (STOP_SEP + stop + ";");
    DateRunOf(start, STOP_SEP + stop + ";");
    var q := p[|start|..];
    assert q == STOP_SEP + stop + ";";
    assert q[..|STOP_SEP|] == STOP_SEP;
    var t := q[|STOP_SEP|..];
    assert t == stop + ";";
    DateRunOf(stop, ";");
    assert t[|stop|..] == ";";
  }

  // ---------------------------------------------------------------- line 3

  function CatLine(submitter: String, nerc: String, ercot: String): String {
    SUBMITTER_OPEN + submitter + NERC_SEP + nerc + ERCOT_SEP + ercot + ";"
  }

  /** Neither separator can overlap a copy of itself: its ';' stands only at index 0. */
  lemma SeparatorNoOverlap(x: String, sep: String, j: nat, p: int)
    requires sep == NERC_SEP || sep == ERCOT_SEP
    requires OccursAt(x, sep, j)
    requires j < p < j + |sep|
    ensures !OccursAt(x, sep, p)
  {
    assert x[p] == sep[p - j] != ';' by {
      assert x[j..j + |sep|][p - j] == x[p];
    }
  }

  /**
   * `(.*); NERCCategory: (.*); ERCOTCategory: (.*);`, all greedy: the ERCOT
   * separator is the last one on the line and the NERC separator the last one
   * before it.
   */
  function ParseCatLine(l: String): (r: Option<(String, String, String)>)
    ensures r.Some? ==> l == CatLine(r.value.0, r.value.1, r.value.2)
    ensures r.Some? ==> !Contains(r.value.1, NERC_SEP) && !Contains(r.value.2, ERCOT_SEP)
  {
    if !(StartsWith(l, SUBMITTER_OPEN) && |l| > |SUBMITTER_OPEN| && l[|l| - 1] == ';') then None
    else
      var x := l[|SUBMITTER_OPEN|..|l| - 1];
      match LastIndexOf(x, ERCOT_SEP)
      case None => None
      case Some(j) =>
        var y := x[..j];
        match LastIndexOf(y, NERC_SEP)
        case None => None
        case Some(i) =>
          LastSplit(x, ERCOT_SEP, j);
          LastSplit(y, NERC_SEP, i);
          var s, n, e := y[..i], y[i + |NERC_SEP|..], x[j + |ERCOT_SEP|..];
          Framed(l, SUBMITTER_OPEN);
          CatLineOfParts(s, n, e);
          Some((s, n, e))
  }

  /** A line that opens with `a` and ends with ';' is `a`, its middle and the ';'. */
  lemma Framed(l: String, a: String)
    requires StartsWith(l, a) && |l| > |a| && l[|l| - 1] == ';'
    ensures l == a + l[|a|..|l| - 1] + ";"
  {
  }

  lemma CatLineOfParts(submitter: String, nerc: String, ercot: String)
    ensures SUBMITTER_OPEN + (submitter + NERC_SEP + nerc + ERCOT_SEP + ercot) + ";"
      == CatLine(submitter, nerc, ercot)
  {
  }

  /** Where the text after a separator holds no copy of it, that separator is the last. */
  lemma LastSeparatorOf(y: String, sep: String, e: String)
    requires sep == NERC_SEP || sep == ERCOT_SEP
    requires !Contains(e, sep)
    ensures LastIndexOf(y + sep + e, sep) == Some(|y|)
  {
    var x := y + sep + e;
    var j := |y|;
    assert x[j..j + |sep|] == sep;
    assert x[j + |sep|..] == e;
    forall p | j < p ensures !OccursAt(x, sep, p) {
      if p < j + |sep| {
        SeparatorNoOverlap(x, sep, j, p);
      } else {
        OccursInSuffix(x, sep, j + |sep|, p - j - |sep|);
      }
    }
    LastOccurrence(x, sep, j);
  }

  lemma ParseCatLineOf(submitter: String, nerc: String, ercot: String)
    requires !Contains(nerc, NERC_SEP) && !Contains(ercot, ERCOT_SEP)
    ensures ParseCatLine(CatLine(submitter, nerc, ercot)) == Some((submitter, nerc, ercot))
  {
    var l := CatLine(submitter, nerc, ercot);
    var y := submitter + NERC_SEP + nerc;
    var x := y + ERCOT_SEP + ercot;
    CatLineOfParts(submitter, nerc, ercot);
    FramedOf(SUBMITTER_OPEN, x);
    LastSeparatorOf(y, ERCOT_SEP, ercot);
    LastSeparatorOf(submitter, NERC_SEP, nerc);
    ThreeParts(y, ERCOT_SEP, ercot);
    ThreeParts(submitter, NERC_SEP, nerc);
  }

  lemma FramedOf(a: String, x: String)
    ensures var l := a + x + ";";
      StartsWith(l, a) && |l| > |a| && l[|l| - 1] == ';' && l[|a|..|l| - 1] == x
  {
    var l := a + x + ";";
    assert l[..|a|] == a;
  }

  lemma ThreeParts(a: String, b: String, c: String)
    ensures (a + b + c)[..|a|] == a && (a + b + c)[|a| + |b|..] == c
  {
  }

  // ---------------------------------------------------------------- declaration line

  function DeclText(d: Decl): String {
    d.indent + (DECL_OPEN + DeclLineText(d.id, d.trail, d.hasComment, d.comment))
  }

  /**
   * The shapes `\s*CONTINGENCY '(.+)'.*?(?:/\* (.*))?` reads back unchanged:
   * the id is non-empty and is followed by the last quote of the line, and the
   * lazy trail stops at the first comment opener.
   */
  predicate DeclWellFormed(d: Decl) {
    AllSpace(d.indent)
    && |d.id| > 0 && '\n' !in d.id
    && '\n' !in d.trail && '\'' !in d.trail && !Contains(d.trail, COMMENT_OPEN)
    && '\n' !in d.comment && '\'' !in d.comment
    && (!d.hasComment ==> d.comment == "")
  }

  function CommentPart(hasComment: bool, comment: String): String {
    if hasComment then COMMENT_OPEN + comment else ""
  }

  /** The declaration line after `CONTINGENCY '`. */
  function DeclLineText(id: String, trail: String, hasComment: bool, comment: String): String {
    id + "'" + (trail + CommentPart(hasComment, comment))
  }

  /** `line` is the declaration line these parts spell, and it reads back as them. */
  predicate DeclLineShape(line: String, id: String, trail: String, hasComment: bool, comment: String) {
    line == DeclLineText(id, trail, hasComment, comment)
    && |id| > 0 && '\'' !in trail && '\'' !in comment && !Contains(trail, COMMENT_OPEN)
    && (!hasComment ==> comment == "")
  }

  /** `(.+)'`: the id runs to the last quote of the line. */
  lemma LastQuoteSplit(line: String, q: nat)
    requires LastIndexOf(line, "'") == Some(q)
    ensures line == line[..q] + "'" + line[q + 1..] && '\'' !in line[q + 1..]
  {
    LastSplit(line, "'", q);
    ContainsChar(line[q + 1..], '\'');
  }

  /** The declaration line after `CONTINGENCY '`: id, trail, comment flag, comment. */
  function ParseDeclLine(line: String): (r: Option<(String, String, bool, String)>)
    ensures r.Some? ==> DeclLineShape(line, r.value.0, r.value.1, r.value.2, r.value.3)
  {
    match LastIndexOf(line, "'")
    case None => None
    case Some(q) =>
      if q == 0 then None
      else
        var id, after := line[..q], line[q + 1..];
        match IndexOf(after, COMMENT_OPEN)
        case None =>
          assert DeclLineShape(line, id, after, false, "") by {
            LastQuoteSplit(line, q);
            assert after + CommentPart(false, "") == after;
          }
          Some((id, after, false, ""))
        case Some(c) =>
          var trail, comment := after[..c], after[c + |COMMENT_OPEN|..];
          assert DeclLineShape(line, id, trail, true, comment) by {
            LastQuoteSplit(line, q);
            FirstSplit(after, COMMENT_OPEN, c);
            assert after == trail + CommentPart(true, comment);
          }
          Some((id, trail, true, comment))
  }

  /** A trail free of the opener, then the opener: the first opener is where the trail ends. */
  lemma FirstOpenerOf(trail: String, comment: String)
    requires !Contains(trail, COMMENT_OPEN)
    ensures IndexOf(trail + COMMENT_OPEN + comment, COMMENT_OPEN) == Some(|trail|)
  {
    var after := trail + COMMENT_OPEN + comment;
    var c := |trail|;
    assert after[c..c + |COMMENT_OPEN|] == COMMENT_OPEN;
    forall k | 0 <= k < c ensures !OccursAt(after, COMMENT_OPEN, k) {
      if k + |COMMENT_OPEN| <= c {
        OccursInPrefix(after, COMMENT_OPEN, c, k);
        assert after[..c] == trail;
      } else {
        assert after[k..k + |COMMENT_OPEN|][c - k] == after[c] == '/';
      }
    }
    FirstOccurrence(after, COMMENT_OPEN, c);
  }

  /** A quote-free tail after a non-empty id: the quote after the id is the last one. */
  lemma LastQuoteOf(id: String, after: String)
    requires '\'' !in after
    ensures LastIndexOf(id + "'" + after, "'") == Some(|id|)
  {
    var line := id + "'" + after;
    var q := |id|;
    OccursChar(line, '\'', q);
    forall k | q < k ensures !OccursAt(line, "'", k) {
      OccursChar(line, '\'', k);
      if k < |line| {
        assert line[k] == after[k - q - 1];
      }
    }
    LastOccurrence(line, "'", q);
  }

  lemma ParseDeclLineOf(id: String, trail: String, hasComment: bool, comment: String)
    requires |id| > 0 && '\'' !in trail && '\'' !in comment && !Contains(trail, COMMENT_OPEN)
    requires !hasComment ==> comment == ""
    ensures ParseDeclLine(DeclLineText(id, trail, hasComment, comment)) == Some((id, trail, hasComment, comment))
  {
    var after := trail + CommentPart(hasComment, comment);
    var line := DeclLineText(id, trail, hasComment, comment);
    assert '\'' !in after;
    LastQuoteOf(id, after);
    ThreeParts(id, "'", after);
    if hasComment {
      CommentAfter(trail, comment);
    } else {
      AppendEmpty(trail);
      NoOpenerNoIndex(trail);
    }
  }

  lemma CommentAfter(trail: String, comment: String)
    requires !Contains(trail, COMMENT_OPEN)
    ensures var after := trail + CommentPart(true, comment);
      && IndexOf(after, COMMENT_OPEN) == Some(|trail|)
      && after[..|trail|] == trail && after[|trail| + |COMMENT_OPEN|..] == comment
  {
    assert trail + CommentPart(true, comment) == trail + COMMENT_OPEN + comment;
    FirstOpenerOf(trail, comment);
    ThreeParts(trail, COMMENT_OPEN, comment);
  }

  lemma NoOpenerNoIndex(s: String)
    requires !Contains(s, COMMENT_OPEN)
    ensures IndexOf(s, COMMENT_OPEN).None?
  {
  }

  function ParseDecl(s: String): (r: Option<(Decl, String)>)
    ensures r.Some? ==> DeclWellFormed(r.value.0) && s == DeclText(r.value.0) + "\n" + r.value.1
  {
    var (indent, t) := SplitSpace(s);
    if !StartsWith(t, DECL_OPEN) then None
    else
      match SplitLine(t[|DECL_OPEN|..])
      case None => None
      case Some(lu) =>
        match ParseDeclLine(lu.0)
        case None => None
        case Some(p) =>
          var d := Decl(indent, p.0, p.1, p.2, p.3);
          assert DeclWellFormed(d) && s == DeclText(d) + "\n" + lu.1 by {
            ParseDeclSound(s, t, lu.0, lu.1, d);
          }
          Some((d, lu.1))
  }

  lemma ParseDeclSound(s: String, t: String, line: String, u: String, d: Decl)
    requires s == d.indent + t && AllSpace(d.indent)
    requires StartsWith(t, DECL_OPEN) && t[|DECL_OPEN|..] == line + "\n" + u && '\n' !in line
    requires DeclLineShape(line, d.id, d.trail, d.hasComment, d.comment)
    ensures DeclWellFormed(d) && s == DeclText(d) + "\n" + u
  {
    assert t == DECL_OPEN + line + "\n" + u by {
      assert t == t[..|DECL_OPEN|] + t[|DECL_OPEN|..];
    }
    DeclLineBreaks(line, d);
  }

  lemma DeclLineBreaks(line: String, d: Decl)
    requires '\n' !in line
    requires DeclLineShape(line, d.id, d.trail, d.hasComment, d.comment)
    ensures '\n' !in d.id && '\n' !in d.trail && '\n' !in d.comment
  {
    assert line == d.id + "'" + (d.trail + CommentPart(d.hasComment, d.comment));
    if d.hasComment {
      assert CommentPart(d.hasComment, d.comment) == COMMENT_OPEN + d.comment;
    }
  }

  lemma ParseDeclOf(d: Decl, u: String)
    requires DeclWellFormed(d)
    ensures ParseDecl(DeclText(d) + "\n" + u) == Some((d, u))
  {
    var line := DeclLineText(d.id, d.trail, d.hasComment, d.comment);
    var t := DECL_OPEN + line + "\n" + u;
    DeclIndentOf(d, u, t);
    DeclLineOf(d, u, t);
    ParseDeclLineOf(d.id, d.trail, d.hasComment, d.comment);
    ParseDeclSteps(d, u, DeclText(d) + "\n" + u, t, line);
  }

  lemma DeclIndentOf(d: Decl, u: String, t: String)
    requires DeclWellFormed(d)
    requires t == DECL_OPEN + DeclLineText(d.id, d.trail, d.hasComment, d.comment) + "\n" + u
    ensures SplitSpace(DeclText(d) + "\n" + u) == (d.indent, t)
  {
    assert DeclText(d) + "\n" + u == d.indent + t;
    LStripOf(d.indent, t);
  }

  lemma DeclLineOf(d: Decl, u: String, t: String)
    requires DeclWellFormed(d)
    requires t == DECL_OPEN + DeclLineText(d.id, d.trail, d.hasComment, d.comment) + "\n" + u
    ensures StartsWith(t, DECL_OPEN)
    ensures SplitLine(t[|DECL_OPEN|..]) == Some((DeclLineText(d.id, d.trail, d.hasComment, d.comment), u))
  {
    var line := DeclLineText(d.id, d.trail, d.hasComment, d.comment);
    assert t[|DECL_OPEN|..] == line + "\n" + u;
    assert '\n' !in line by {
      assert '\n' !in CommentPart(d.hasComment, d.comment);
    }
    SplitLineOf(line, u);
  }

  lemma ParseDeclSteps(d: Decl, u: String, s: String, t: String, line: String)
    requires SplitSpace(s) == (d.indent, t)
    requires StartsWith(t, DECL_OPEN)
    requires SplitLine(t[|DECL_OPEN|..]) == Some((line, u))
    requires ParseDeclLine(line) == Some((d.id, d.trail, d.hasComment, d.comment))
    ensures ParseDecl(s) == Some((d, u))
  {
  }

  // ---------------------------------------------------------------- body and END

  /**
   * Where the lazily repeated group `(?:\s*[\S\s]+?\n)*?` can stop: at the
   * start, or after a line break at index 1 or later (every repetition takes
   * at least two characters and ends with a line break).
   */
  predicate ValidCut(u: String, k: int) {
    k == 0 || (2 <= k <= |u| && u[k - 1] == '\n')
  }

  /** `\s*END\n` matches at the start of `t`. */
  predicate EndsHere(t: String) {
    StartsWith(LStrip(t), END_LINE)
  }

  /** `k` is the first place the body group can stop and END follows. */
  predicate IsFirstEnd(u: String, k: int) {
    0 <= k <= |u| && ValidCut(u, k) && EndsHere(u[k..]) && NoEndBefore(u, k)
  }

  /** No place before `k` where the body group can stop has END after it. */
  predicate NoEndBefore(u: String, k: int) {
    forall j :: 0 <= j < k && ValidCut(u, j) ==> !EndsHere(u[j..])
  }

  lemma NoEndStep(u: String, k: nat)
    requires k <= |u| && NoEndBefore(u, k) && !(ValidCut(u, k) && EndsHere(u[k..]))
    ensures NoEndBefore(u, k + 1)
  {
  }

  /** The search of the lazy group: the first place from `k` on where END follows. */
  function FindEnd(u: String, k: nat): (r: Option<nat>)
    requires k <= |u| && NoEndBefore(u, k)
    ensures r.Some? ==> IsFirstEnd(u, r.value)
    ensures r.None? ==> NoEndBefore(u, |u| + 1)
    decreases |u| - k
  {
    if ValidCut(u, k) && EndsHere(u[k..]) then Some(k)
    else
      NoEndStep(u, k);
      if k == |u| then None else FindEnd(u, k + 1)
  }

  function Tail(body: String, endIndent: String, rest: String): String {
    body + endIndent + END_LINE + rest
  }

  /** The body (group 9), the whitespace before END, and what follows END. */
  function ParseBody(u: String): (r: Option<(String, String, String)>)
    ensures r.Some? ==> u == Tail(r.value.0, r.value.1, r.value.2)
    ensures r.Some? ==> AllSpace(r.value.1) && IsFirstEnd(u, |r.value.0|)
  {
    match FindEnd(u, 0)
    case None => None
    case Some(k) =>
      var (w, l) := SplitSpace(u[k..]);
      BodySplit(u, k, w, l);
      Some((u[..k], w, l[|END_LINE|..]))
  }

  lemma BodySplit(u: String, k: nat, w: String, l: String)
    requires k <= |u| && u[k..] == w + l && StartsWith(l, END_LINE)
    ensures u == Tail(u[..k], w, l[|END_LINE|..])
  {
    assert l == END_LINE + l[|END_LINE|..];
    assert u == u[..k] + u[k..];
  }

  lemma ParseBodyOf(body: String, endIndent: String, rest: String)
    requires AllSpace(endIndent)
    requires IsFirstEnd(Tail(body, endIndent, rest), |body|)
    ensures ParseBody(Tail(body, endIndent, rest)) == Some((body, endIndent, rest))
  {
    var u := Tail(body, endIndent, rest);
    var k := FindEnd(u, 0).value;
    FirstEndUnique(u, k, |body|);
    TailParts(body, endIndent, rest);
  }

  /** There is only one first place. */
  lemma FirstEndUnique(u: String, k1: int, k2: int)
    requires IsFirstEnd(u, k1) && IsFirstEnd(u, k2)
    ensures k1 == k2
  {
  }

  lemma TailParts(body: String, endIndent: String, rest: String)
    requires AllSpace(endIndent)
    ensures var u := Tail(body, endIndent, rest);
      u[..|body|] == body && SplitSpace(u[|body|..]) == (endIndent, END_LINE + rest)
      && (END_LINE + rest)[|END_LINE|..] == rest
  {
    var u := Tail(body, endIndent, rest);
    assert u[|body|..] == endIndent + (END_LINE + rest);
    LStripOf(endIndent, END_LINE + rest);
  }

  // ---------------------------------------------------------------- the whole record

  /** The first three header lines' fields. */
  datatype Head = Head(name: String, startDate: String, stopDate: String,
                       submitter: String, nercCat: String, ercotCat: String)

  function HeadText(h: Head, u: String): String {
    NameLine(h.name) + "\n" + (
    DateLine(h.startDate, h.stopDate) + "\n" + (
    CatLine(h.submitter, h.nercCat, h.ercotCat) + "\n" + u))
  }

  predicate HeadWellFormed(h: Head) {
    '\n' !in h.name
    && AllDate(h.startDate) && AllDate(h.stopDate)
    && '\n' !in h.submitter && '\n' !in h.nercCat && '\n' !in h.ercotCat
    && !Contains(h.nercCat, NERC_SEP) && !Contains(h.ercotCat, ERCOT_SEP)
  }

  /** Lines 1 to 3 of the header and the text after them. */
  function ParseHead(s: String): (r: Option<(Head, String)>)
    ensures r.Some? ==> HeadWellFormed(r.value.0) && s == HeadText(r.value.0, r.value.1)
  {
    match SplitLine(s)
    case None => None
    case Some(a) =>
      match ParseNameLine(a.0)
      case None => None
      case Some(name) =>
        match ParseDatesAndCats(a.1)
        case None => None
        case Some(q) =>
          var h := Head(name, q.0, q.1, q.2, q.3, q.4);
          assert '\n' !in h.name by {
            assert a.0 == NAME_OPEN + name + "'";
          }
          Some((h, q.5))
  }

  /** Lines 2 and 3. */
  function ParseDatesAndCats(s: String): (r: Option<(String, String, String, String, String, String)>)
    ensures r.Some? ==> var q := r.value;
      AllDate(q.0) && AllDate(q.1)
      && '\n' !in q.2 && '\n' !in q.3 && '\n' !in q.4
      && !Contains(q.3, NERC_SEP) && !Contains(q.4, ERCOT_SEP)
      && s == DateLine(q.0, q.1) + "\n" + (CatLine(q.2, q.3, q.4) + "\n" + q.5)
  {
    match SplitLine(s)
    case None => None
    case Some(b) =>
      match ParseDateLine(b.0)
      case None => None
      case Some(dates) =>
        match ParseCatsLine(b.1)
        case None => None
        case Some(c) =>
          Some((dates.0, dates.1, c.0, c.1, c.2, c.3))
  }

  /** Line 3. */
  function ParseCatsLine(s: String): (r: Option<(String, String, String, String)>)
    ensures r.Some? ==> var q := r.value;
      '\n' !in q.0 && '\n' !in q.1 && '\n' !in q.2
      && !Contains(q.1, NERC_SEP) && !Contains(q.2, ERCOT_SEP)
      && s == CatLine(q.0, q.1, q.2) + "\n" + q.3
  {
    match SplitLine(s)
    case None => None
    case Some(c) =>
      match ParseCatLine(c.0)
      case None => None
      case Some(cats) =>
        CatLineBreaks(cats.0, cats.1, cats.2);
        Some((cats.0, cats.1, cats.2, c.1))
  }

  lemma CatLineBreaks(submitter: String, nerc: String, ercot: String)
    requires '\n' !in CatLine(submitter, nerc, ercot)
    ensures '\n' !in submitter && '\n' !in nerc && '\n' !in ercot
  {
    assert CatLine(submitter, nerc, ercot) == SUBMITTER_OPEN + submitter + NERC_SEP + nerc + ERCOT_SEP + ercot + ";";
  }

  lemma DateLineBreaks(start: String, stop: String)
    requires AllDate(start) && AllDate(stop)
    ensures '\n' !in DateLine(start, stop)
  {
    var l := DateLine(start, stop);
    forall k | 0 <= k < |l| ensures l[k] != '\n' {
      if |START_OPEN| <= k < |START_OPEN| + |start| {
        assert l[k] == start[k - |START_OPEN|];
      } else if |START_OPEN| + |start| + |STOP_SEP| <= k < |l| - 1 {
        assert l[k] == stop[k - |START_OPEN| - |start| - |STOP_SEP|];
      }
    }
  }

  lemma ParseHeadOf(h: Head, u: String)
    requires HeadWellFormed(h)
    ensures ParseHead(HeadText(h, u)) == Some((h, u))
  {
    var r1 := DateLine(h.startDate, h.stopDate) + "\n" + (CatLine(h.submitter, h.nercCat, h.ercotCat) + "\n" + u);
    assert '\n' !in NameLine(h.name);
    SplitLineOf(NameLine(h.name), r1);
    ParseNameLineOf(h.name);
    ParseDatesAndCatsOf(h.startDate, h.stopDate, h.submitter, h.nercCat, h.ercotCat, u);
  }

  lemma ParseDatesAndCatsOf(start: String, stop: String, submitter: String, nerc: String, ercot: String, u: String)
    requires AllDate(start) && AllDate(stop)
    requires '\n' !in submitter && '\n' !in nerc && '\n' !in ercot
    requires !Contains(nerc, NERC_SEP) && !Contains(ercot, ERCOT_SEP)
    ensures ParseDatesAndCats(DateLine(start, stop) + "\n" + (CatLine(submitter, nerc, ercot) + "\n" + u))
         == Some((start, stop, submitter, nerc, ercot, u))
  {
    var l2 := DateLine(start, stop);
    DateLineBreaks(start, stop);
    SplitLineOf(l2, CatLine(submitter, nerc, ercot) + "\n" + u);
    ParseDateLineOf(start, stop);
    ParseCatsLineOf(submitter, nerc, ercot, u);
  }

  lemma ParseCatsLineOf(submitter: String, nerc: String, ercot: String, u: String)
    requires '\n' !in submitter && '\n' !in nerc && '\n' !in ercot
    requires !Contains(nerc, NERC_SEP) && !Contains(ercot, ERCOT_SEP)
    ensures ParseCatsLine(CatLine(submitter, nerc, ercot) + "\n" + u) == Some((submitter, nerc, ercot, u))
  {
    var l3 := CatLine(submitter, nerc, ercot);
    assert '\n' !in l3;
    SplitLineOf(l3, u);
    ParseCatLineOf(submitter, nerc, ercot);
  }

  function HeadOf(m: Match): Head {
    var f := m.fields;
    Head(f.name, f.startDate, f.stopDate, f.submitter, f.nercCat, f.ercotCat)
  }

  function DeclOf(m: Match): Decl {
    Decl(m.layout.declIndent, m.fields.id, m.layout.trail, m.layout.hasComment, m.fields.idComment)
  }

  function MatchTail(m: Match): String {
    Tail(m.fields.body, m.layout.endIndent, m.layout.rest)
  }

  /** The record text a match describes. */
  function Render(m: Match): String {
    HeadText(HeadOf(m), DeclText(DeclOf(m)) + "\n" + MatchTail(m))
  }

  /** The matches `Parse` produces: exactly those it reads back from their rendering. */
  predicate WellFormed(m: Match) {
    HeadWellFormed(HeadOf(m))
    && DeclWellFormed(DeclOf(m))
    && AllSpace(m.layout.endIndent)
    && IsFirstEnd(MatchTail(m), |m.fields.body|)
  }

  /** The match made of a head, a declaration and the body split. */
  function Assemble(h: Head, d: Decl, tail: (String, String, String)): (m: Match)
    ensures HeadOf(m) == h && DeclOf(m) == d
    ensures MatchTail(m) == Tail(tail.0, tail.1, tail.2) && m.layout.endIndent == tail.1
    ensures |m.fields.body| == |tail.0|
  {
    Match(
      Fields(h.name, h.startDate, h.stopDate, h.submitter, h.nercCat, h.ercotCat, d.id, d.comment, tail.0),
      Layout(d.indent, d.trail, d.hasComment, tail.1, tail.2))
  }

  /**
   * `re.match(big_regex, text)`: the record's parts, or `ValueError` when the
   * text does not start with the header shape.
   */
  function Parse(s: String): (r: Result<Match>)
    ensures r.Ok? ==> WellFormed(r.value) && Render(r.value) == s
  {
    match ParseHead(s)
    case None => Err(ValueError)
    case Some(hu) =>
      match ParseDecl(hu.1)
      case None => Err(ValueError)
      case Some(du) =>
        match ParseBody(du.1)
        case None => Err(ValueError)
        case Some(tail) =>
          Ok(Assemble(hu.0, du.0, tail))
  }

  /** Every well-formed match is read back from its own rendering. */
  lemma ParseRender(m: Match)
    requires WellFormed(m)
    ensures Parse(Render(m)) == Ok(m)
  {
    var u := DeclText(DeclOf(m)) + "\n" + MatchTail(m);
    ParseHeadOf(HeadOf(m), u);
    ParseDeclOf(DeclOf(m), MatchTail(m));
    ParseBodyOf(m.fields.body, m.layout.endIndent, m.layout.rest);
  }

  /**
   * `Contingency(text)` raises `ValueError` exactly when the text is not the
   * rendering of any well-formed match.
   */
  lemma ParseFailsIff(s: String)
    ensures Parse(s).Err? <==> forall m :: WellFormed(m) ==> Render(m) != s
  {
    if Parse(s).Err? {
      forall m | WellFormed(m) ensures Render(m) != s {
        ParseRender(m);
      }
    }
  }

  /** The parse is unique: one text, one match. */
  lemma RenderInjective(m1: Match, m2: Match)
    requires WellFormed(m1) && WellFormed(m2)
    requires Render(m1) == Render(m2)
    ensures m1 == m2
  {
    ParseRender(m1);
    ParseRender(m2);
  }
}
