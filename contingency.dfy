// One contingency record (consort/contingency.py): the header fields read by
// the header grammar, the (statement, comment) pairs of its body, the category
// group, the id rename and the export row.
module Contingencies {
  import opened Wrappers
  import opened Text
  import opened Header
  import opened Lines

  // ---------------------------------------------------------------- category group

  const UNSPECIFIED: String := "UNSPECIFIED"

  /** The substrings `_set_contingency_group` tests, in order, with their labels. */
  const GROUPS: seq<(String, String)> := [
    ("EE1", "EXTREME EVENT / DOUBLE CIRCUIT"),
    ("EE2", "EXTREME EVENT / LOCAL AREA"),
    ("EE3", "EXTREME EVENT / WIDE AREA"),
    ("P1.1", "SINGLE GENERATOR OUTAGE"),
    ("P1.2", "SINGLE LINE OUTAGE"),
    ("P1.3", "SINGLE TRANSFORMER OUTAGE"),
    ("P1.4", "SINGLE SHUNT OUTAGE"),
    ("P2.", "FAULT / PROTECTION EVENT"),
    ("P4.", "FAULT / PROTECTION EVENT"),
    ("P5.", "FAULT / PROTECTION EVENT"),
    ("P6.", "SINGLE POLE OF A DC LINE"),
    ("P7.", "DOUBLE LINE OUTAGE")
  ]

  /** `_set_contingency_group`: the if-chain over substrings of the category. */
  function GroupOf(cat: String): String {
    if Contains(cat, "EE1") then "EXTREME EVENT / DOUBLE CIRCUIT"
    else if Contains(cat, "EE2") then "EXTREME EVENT / LOCAL AREA"
    else if Contains(cat, "EE3") then "EXTREME EVENT / WIDE AREA"
    else if Contains(cat, "P1.1") then "SINGLE GENERATOR OUTAGE"
    else if Contains(cat, "P1.2") then "SINGLE LINE OUTAGE"
    else if Contains(cat, "P1.3") then "SINGLE TRANSFORMER OUTAGE"
    else if Contains(cat, "P1.4") then "SINGLE SHUNT OUTAGE"
    else if Contains(cat, "P2.") then "FAULT / PROTECTION EVENT"
    else if Contains(cat, "P4.") then "FAULT / PROTECTION EVENT"
    else if Contains(cat, "P5.") then "FAULT / PROTECTION EVENT"
    else if Contains(cat, "P6.") then "SINGLE POLE OF A DC LINE"
    else if Contains(cat, "P7.") then "DOUBLE LINE OUTAGE"
    else UNSPECIFIED
  }

  /** The label of the first entry from index `i` on whose pattern occurs in `cat`. */
  function FirstMatch(table: seq<(String, String)>, cat: String, i: nat): String
    decreases |table| - i
  {
    if i >= |table| then UNSPECIFIED
    else if Contains(cat, table[i].0) then table[i].1
    else FirstMatch(table, cat, i + 1)
  }

  /** The first matching entry decides. */
  lemma {:induction false} FirstMatchAt(table: seq<(String, String)>, cat: String, from: nat, i: nat)
    requires from <= i < |table| && Contains(cat, table[i].0)
    requires forall j :: from <= j < i ==> !Contains(cat, table[j].0)
    ensures FirstMatch(table, cat, from) == table[i].1
    decreases i - from
  {
    if from < i {
      FirstMatchAt(table, cat, from + 1, i);
    }
  }

  /** No matching entry gives the fallback label. */
  lemma {:induction false} FirstMatchNone(table: seq<(String, String)>, cat: String, from: nat)
    requires forall j :: from <= j < |table| ==> !Contains(cat, table[j].0)
    ensures FirstMatch(table, cat, from) == UNSPECIFIED
    decreases |table| - from
  {
    if from < |table| {
      FirstMatchNone(table, cat, from + 1);
    }
  }

  /** The if-chain is the first-match lookup in the ordered table. */
  lemma GroupOfIsFirstMatch(cat: String)
    ensures GroupOf(cat) == FirstMatch(GROUPS, cat, 0)
  {
    var t := GROUPS;
    assert FirstMatch(t, cat, 12) == UNSPECIFIED;
    assert FirstMatch(t, cat, 11) == if Contains(cat, "P7.") then "DOUBLE LINE OUTAGE" else UNSPECIFIED;
    assert FirstMatch(t, cat, 10) == if Contains(cat, "P6.") then "SINGLE POLE OF A DC LINE" else FirstMatch(t, cat, 11);
    assert FirstMatch(t, cat, 9) == if Contains(cat, "P5.") then "FAULT / PROTECTION EVENT" else FirstMatch(t, cat, 10);
    assert FirstMatch(t, cat, 8) == if Contains(cat, "P4.") then "FAULT / PROTECTION EVENT" else FirstMatch(t, cat, 9);
    assert FirstMatch(t, cat, 7) == if Contains(cat, "P2.") then "FAULT / PROTECTION EVENT" else FirstMatch(t, cat, 8);
    assert FirstMatch(t, cat, 6) == if Contains(cat, "P1.4") then "SINGLE SHUNT OUTAGE" else FirstMatch(t, cat, 7);
    assert FirstMatch(t, cat, 5) == if Contains(cat, "P1.3") then "SINGLE TRANSFORMER OUTAGE" else FirstMatch(t, cat, 6);
    assert FirstMatch(t, cat, 4) == if Contains(cat, "P1.2") then "SINGLE LINE OUTAGE" else FirstMatch(t, cat, 5);
    assert FirstMatch(t, cat, 3) == if Contains(cat, "P1.1") then "SINGLE GENERATOR OUTAGE" else FirstMatch(t, cat, 4);
    assert FirstMatch(t, cat, 2) == if Contains(cat, "EE3") then "EXTREME EVENT / WIDE AREA" else FirstMatch(t, cat, 3);
    assert FirstMatch(t, cat, 1) == if Contains(cat, "EE2") then "EXTREME EVENT / LOCAL AREA" else FirstMatch(t, cat, 2);
  }

  // ---------------------------------------------------------------- export row

  const COL_ID: String := "CONTINGENCY"
  const COL_TYPE: String := "CONTINGENCY TYPE"
  const COL_GROUP: String := "CONTINGENCY GROUP"
  const COL_DESCRIPTION: String := "CONTINGENCY DESCRIPTION"
  const COL_START: String := "DATE START"
  const COL_END: String := "DATE END"
  const COL_DUPLICATES: String := "DUPLICATES"

  /** `f"NERC {cat.replace('/', ' / ')}"`. */
  function TypeColumn(cat: String): String {
    "NERC " + ReplaceAll(cat, "/", " / ")
  }

  /** `f"{c.id} - {c.nerc_cat}"` for one linked duplicate. */
  function DuplicateEntry(dupId: String, dupCat: String): String {
    dupId + " - " + dupCat
  }

  function DuplicateEntries(dups: seq<(String, String)>): (r: seq<String>)
    ensures |r| == |dups| && forall k :: 0 <= k < |dups| ==> r[k] == DuplicateEntry(dups[k].0, dups[k].1)
  {
    seq(|dups|, k requires 0 <= k < |dups| => DuplicateEntry(dups[k].0, dups[k].1))
  }

  /**
   * `make_csv_line_dict` on the record's values; `dups` holds `(id, nerc_cat)`
   * of each linked duplicate, in list order.
   */
  function CsvLine(recId: String, cat: String, group: String, trimmed: String,
                   start: String, stop: String, dups: seq<(String, String)>): (row: map<String, String>)
    ensures row.Keys == {COL_ID, COL_TYPE, COL_GROUP, COL_DESCRIPTION, COL_START, COL_END, COL_DUPLICATES}
    ensures |row.Keys| == 7
  {
    map[COL_ID := recId,
        COL_TYPE := TypeColumn(cat),
        COL_GROUP := group,
        COL_DESCRIPTION := RStrip(trimmed),
        COL_START := start,
        COL_END := stop,
        COL_DUPLICATES := Join(DuplicateEntries(dups), "\n")]
  }

  /** Every `/` of the category becomes ` / `: the pieces between them are kept. */
  lemma TypeColumnSlashes(cat: String)
    ensures TypeColumn(cat) == "NERC " + Join(SplitOn(cat, "/"), " / ")
  {
    ReplaceIsSplitJoin(cat, "/", " / ");
  }

  /** A category without `/` is copied verbatim after `NERC `. */
  lemma TypeColumnNoSlash(cat: String)
    requires '/' !in cat
    ensures TypeColumn(cat) == "NERC " + cat
  {
    ContainsChar(cat, '/');
    ReplaceUnchangedIff(cat, "/", " / ");
  }

  /**
   * The DESCRIPTION column of a record's row is its comment-trimmed text less
   * the trailing whitespace, and only that whitespace is dropped.
   */
  lemma DescriptionColumn(c: Contingency)
    ensures var t, d := c.trimmedFullStr, c.CsvRow()[COL_DESCRIPTION];
      |d| <= |t| && t == d + t[|d|..] && AllSpace(t[|d|..]) && (d == [] || !IsSpace(d[|d| - 1]))
  {
  }

  /**
   * The duplicates column splits back into one `"<id> - <category>"` entry per
   * linked record, in list order, when no id or category holds a line break.
   */
  lemma DuplicatesColumnSplits(dups: seq<(String, String)>)
    requires |dups| > 0
    requires forall k :: 0 <= k < |dups| ==> '\n' !in dups[k].0 && '\n' !in dups[k].1
    ensures SplitOn(Join(DuplicateEntries(dups), "\n"), "\n") == DuplicateEntries(dups)
  {
    var es := DuplicateEntries(dups);
    forall k | 0 <= k < |es| ensures '\n' !in es[k] {
      assert es[k] == dups[k].0 + " - " + dups[k].1;
    }
    SplitOnJoin(es, '\n');
  }

  // ---------------------------------------------------------------- the record

  /**
   * A `Contingency` object. Fields the source never reassigns after `__init__`
   * are constants; `change_id` rewrites `fullStr`, `trimmedFullStr` and `id`,
   * and the pipeline extends `duplicates` in place.
   */
  class Contingency {
    var fullStr: String
    var trimmedFullStr: String
    const sourceFile: Option<String>
    const name: String
    const startDate: String
    const stopDate: String
    const submitter: String
    const nercCat: String
    const nercGroup: String
    const ercotCat: String
    var id: String
    const idComment: String
    const lines: seq<(String, String)>
    const linesStr: String
    var duplicates: seq<Contingency>

    /**
     * The field assignments of `Contingency(full_str, source_file)` once the
     * header has matched as `m` (`Create` runs the match).
     */
    constructor (full: String, source: Option<String>, m: Match)
      ensures fullStr == full && trimmedFullStr == TrimComments(full) && sourceFile == source
      ensures name == m.fields.name && startDate == m.fields.startDate && stopDate == m.fields.stopDate
      ensures submitter == m.fields.submitter && nercCat == m.fields.nercCat && ercotCat == m.fields.ercotCat
      ensures nercGroup == GroupOf(m.fields.nercCat)
      ensures id == m.fields.id && idComment == m.fields.idComment
      ensures lines == Pairs(SplitOn(m.fields.body, "\n"))
      ensures linesStr == LinesStr(lines)
      ensures duplicates == []
    {
      var acc := ReadLines(SplitOn(m.fields.body, "\n"));
      fullStr := full;
      trimmedFullStr := TrimComments(full);
      sourceFile := source;
      name := m.fields.name;
      startDate := m.fields.startDate;
      stopDate := m.fields.stopDate;
      submitter := m.fields.submitter;
      nercCat := m.fields.nercCat;
      nercGroup := GroupOf(m.fields.nercCat);
      ercotCat := m.fields.ercotCat;
      id := m.fields.id;
      idComment := m.fields.idComment;
      lines := acc;
      linesStr := LinesStr(acc);
      duplicates := [];
    }

    /** The `for line in m[9].split('\n')` loop of `__init__`. */
    static method ReadLines(raws: seq<String>) returns (acc: seq<(String, String)>)
      ensures acc == Pairs(raws)
    {
      acc := [];
      var i := 0;
      while i < |raws|
        invariant 0 <= i <= |raws|
        invariant acc == Pairs(raws[..i])
      {
        assert raws[..i + 1][..i] == raws[..i];
        if raws[i] != "" {
          acc := acc + [StatementPair(raws[i])];
        }
        i := i + 1;
      }
      assert raws[..i] == raws;
    }

    /** `change_id(new_id)`; `AttributeError` when a line pair holds the old id as a component. */
    method ChangeId(newId: String) returns (r: Result<()>)
      modifies this`fullStr, this`trimmedFullStr, this`id
      ensures fullStr == ReplaceAll(old(fullStr), old(id), newId)
      ensures trimmedFullStr == ReplaceAll(old(trimmedFullStr), old(id), newId)
      ensures r.Ok? <==> !IdInLines(lines, old(id))
      ensures r.Ok? ==> id == newId
      ensures r.Err? ==> r.error == AttributeError && id == old(id)
    {
      var oldId := id;
      fullStr := ReplaceAll(fullStr, oldId, newId);
      trimmedFullStr := ReplaceAll(trimmedFullStr, oldId, newId);
      var i := 0;
      while i < |lines|
        invariant 0 <= i <= |lines|
        invariant forall k :: 0 <= k < i ==> lines[k].0 != oldId && lines[k].1 != oldId
      {
        if oldId == lines[i].0 || oldId == lines[i].1 {
          // `tuple.replace` does not exist: the call raises before assigning.
          return Err(AttributeError);
        }
        i := i + 1;
      }
      // `self.lines_str.replace(...)` builds a new string and drops it.
      id := newId;
      return Ok(());
    }

    /** `make_csv_line_dict()`. */
    function CsvRow(): (row: map<String, String>)
      reads this, duplicates
      ensures |row.Keys| == 7
    {
      CsvLine(id, nercCat, nercGroup, trimmedFullStr, startDate, stopDate, DuplicateRefs(duplicates))
    }
  }

  /** Tuple membership `old_id in (statement, comment)`, over all pairs. */
  predicate IdInLines(lines: seq<(String, String)>, oldId: String) {
    exists k :: 0 <= k < |lines| && (lines[k].0 == oldId || lines[k].1 == oldId)
  }

  /** The `(id, nerc_cat)` of each linked duplicate, in list order. */
  function DuplicateRefs(ds: seq<Contingency>): (r: seq<(String, String)>)
    reads ds
    ensures |r| == |ds| && forall k :: 0 <= k < |ds| ==> r[k] == (ds[k].id, ds[k].nercCat)
  {
    seq(|ds|, k requires 0 <= k < |ds| reads ds => (ds[k].id, ds[k].nercCat))
  }

  /** `__eq__`/`__hash__`: two records are equal exactly when their texts are. */
  predicate Equal(a: Contingency, b: Contingency)
    reads a, b
  {
    a.fullStr == b.fullStr
  }

  /** `Contingency(text)`: `ValueError` when the header does not match. */
  method Create(full: String, source: Option<String>) returns (r: Result<Contingency>)
    ensures r.Err? <==> Parse(full).Err?
    ensures r.Err? ==> r.error == ValueError
    ensures r.Ok? ==> fresh(r.value) && r.value.duplicates == []
    ensures r.Ok? ==> r.value.fullStr == full && r.value.trimmedFullStr == TrimComments(full) && r.value.sourceFile == source
    ensures r.Ok? ==> var f := Parse(full).value.fields;
      && r.value.name == f.name && r.value.startDate == f.startDate && r.value.stopDate == f.stopDate
      && r.value.submitter == f.submitter && r.value.nercCat == f.nercCat && r.value.ercotCat == f.ercotCat
      && r.value.nercGroup == GroupOf(f.nercCat)
      && r.value.id == f.id && r.value.idComment == f.idComment
      && r.value.lines == Pairs(SplitOn(f.body, "\n"))
      && r.value.linesStr == LinesStr(r.value.lines)
  {
    match Parse(full)
    case Err(_) =>
      return Err(ValueError);
    case Ok(m) =>
      var c := new Contingency(full, source, m);
      return Ok(c);
  }

  /**
   * The id occurs in the record text, so renaming to a different id always
   * changes the text and with it the record's identity.
   */
  lemma RenameChangesText(m: Match, newId: String)
    requires WellFormed(m) && newId != m.fields.id
    ensures ReplaceAll(Render(m), m.fields.id, newId) != Render(m)
  {
    var x := m.fields.id;
    var u := DeclText(DeclOf(m)) + "\n" + MatchTail(m);
    var at := IdInDecl(DeclOf(m), MatchTail(m));
    var k := HeadTextSuffix(HeadOf(m), u);
    OccursInSuffix(Render(m), x, k, at);
    ReplaceUnchangedIff(Render(m), x, newId);
  }

  /** The id stands right after the indent and `CONTINGENCY '`. */
  lemma IdInDecl(d: Decl, tail: String) returns (at: nat)
    ensures OccursAt(DeclText(d) + "\n" + tail, d.id, at)
  {
    at := |d.indent| + |DECL_OPEN|;
    var rest := "'" + (d.trail + CommentPart(d.hasComment, d.comment)) + "\n" + tail;
    assert DeclText(d) + "\n" + tail == d.indent + DECL_OPEN + d.id + rest;
    assert (d.indent + DECL_OPEN + d.id + rest)[at..at + |d.id|] == d.id;
  }

  /** What follows the three header lines is a suffix of the text. */
  lemma HeadTextSuffix(h: Head, u: String) returns (k: nat)
    ensures k <= |HeadText(h, u)| && HeadText(h, u)[k..] == u
  {
    var pre := NameLine(h.name) + "\n" + DateLine(h.startDate, h.stopDate) + "\n"
      + CatLine(h.submitter, h.nercCat, h.ercotCat) + "\n";
    assert HeadText(h, u) == pre + u;
    k := |pre|;
  }
}
