// Output assembly (consort/tools.py): the category count and the text layout
// of a dump. The dump is the sequence of strings the source writes, in order.
module Tools {
  import opened Text
  import opened Sorting
  import opened Contingencies

  // The separator line: an opener, a space, 105 '=' and a newline.
  const SEP_LINE: String := "/* " + Repeat('=', 105) + "\n"

  lemma SepLineShape()
    ensures |SEP_LINE| == 109 && SEP_LINE[..3] == "/* " && SEP_LINE[108] == '\n'
    ensures forall i :: 3 <= i < 108 ==> SEP_LINE[i] == '='
  {
    assert SEP_LINE == "/* " + Repeat('=', 105) + "\n";
  }

  // ---------------------------------------------------------------- category count

  /** The categories of the records, in input order. */
  function CatsOf(cons: seq<Contingency>): (r: seq<String>)
    ensures |r| == |cons| && forall i :: 0 <= i < |cons| ==> r[i] == cons[i].nercCat
  {
    seq(|cons|, i requires 0 <= i < |cons| => cons[i].nercCat)
  }

  /** How many entries of `s` equal `c`. */
  function Count(s: seq<String>, c: String): nat
    decreases |s|
  {
    if s == [] then 0
    else Count(s[..|s| - 1], c) + if s[|s| - 1] == c then 1 else 0
  }

  /** `s` without the entries equal to `c`. */
  function Remove(s: seq<String>, c: String): seq<String>
    decreases |s|
  {
    if s == [] then []
    else Remove(s[..|s| - 1], c) + if s[|s| - 1] == c then [] else [s[|s| - 1]]
  }

  lemma CountSnoc(s: seq<String>, x: String, k: String)
    ensures Count(s + [x], k) == Count(s, k) + if x == k then 1 else 0
    ensures Remove(s + [x], k) == Remove(s, k) + if x == k then [] else [x]
  {
    assert (s + [x])[..|s + [x]| - 1] == s;
  }

  lemma {:induction false} CountPositive(s: seq<String>, c: String)
    ensures Count(s, c) > 0 <==> c in s
    decreases |s|
  {
    if s != [] {
      var init := s[..|s| - 1];
      CountPositive(init, c);
      assert s == init + [s[|s| - 1]];
    }
  }

  lemma {:induction false} RemoveFacts(s: seq<String>, c: String)
    ensures |s| == |Remove(s, c)| + Count(s, c)
    ensures forall k :: k != c ==> Count(Remove(s, c), k) == Count(s, k)
    ensures forall k :: k in Remove(s, c) <==> k in s && k != c
    decreases |s|
  {
    if s != [] {
      var init := s[..|s| - 1];
      var last := s[|s| - 1];
      RemoveFacts(init, c);
      assert s == init + [last];
      var r := Remove(init, c);
      CountSnoc(init, last, c);
      assert Remove(s, c) == r + if last == c then [] else [last];
      forall k | k != c ensures Count(Remove(s, c), k) == Count(s, k) {
        CountSnoc(init, last, k);
        assert Count(s, k) == Count(init, k) + if last == k then 1 else 0;
        assert Count(r, k) == Count(init, k);
        if last != c {
          CountSnoc(r, last, k);
        } else {
          assert Remove(s, c) == r;
        }
      }
    }
  }

  /** Keys of a count table, in order. */
  function Keys(items: seq<(String, nat)>): (r: seq<String>)
    ensures |r| == |items| && forall i :: 0 <= i < |items| ==> r[i] == items[i].0
  {
    seq(|items|, i requires 0 <= i < |items| => items[i].0)
  }

  function SumCounts(items: seq<(String, nat)>): nat
    decreases |items|
  {
    if items == [] then 0 else items[0].1 + SumCounts(items[1..])
  }

  /** `items` counts `cats` exactly: one entry per distinct category, with its multiplicity. */
  predicate CountsOf(items: seq<(String, nat)>, cats: seq<String>) {
    (forall i, j :: 0 <= i < j < |items| ==> items[i].0 != items[j].0)
    && (forall c :: c in cats ==> c in Keys(items))
    && (forall i :: 0 <= i < |items| ==> items[i].0 in cats)
    && (forall i :: 0 <= i < |items| ==> items[i].1 == Count(cats, items[i].0))
  }

  /** Dropping the first entry of a count table leaves a table of the other categories. */
  lemma TailCounts(a: seq<(String, nat)>, cats: seq<String>)
    requires a != [] && CountsOf(a, cats)
    ensures CountsOf(a[1..], Remove(cats, a[0].0))
  {
    var rest := a[1..];
    var smaller := Remove(cats, a[0].0);
    RemoveFacts(cats, a[0].0);
    forall c | c in smaller ensures c in Keys(rest) {
      var j :| 0 <= j < |a| && a[j].0 == c;
      assert j != 0 && rest[j - 1].0 == c;
    }
    forall i | 0 <= i < |rest| ensures rest[i].0 in smaller && rest[i].1 == Count(smaller, rest[i].0) {
      assert rest[i] == a[i + 1];
    }
  }

  /** An exact count table adds up to the number of records counted. */
  lemma {:induction false} SumOfCounts(items: seq<(String, nat)>, cats: seq<String>)
    requires CountsOf(items, cats)
    ensures SumCounts(items) == |cats|
    decreases |items|
  {
    if items == [] {
      NothingCounted(cats);
    } else {
      TailCounts(items, cats);
      RemoveFacts(cats, items[0].0);
      SumOfCounts(items[1..], Remove(cats, items[0].0));
    }
  }

  lemma NothingCounted(cats: seq<String>)
    requires CountsOf([], cats)
    ensures |cats| == 0
  {
    assert |cats| > 0 ==> cats[0] in cats && |Keys([])| == 0;
  }

  /** Strictly ascending categories. */
  predicate AscendingCats(items: seq<(String, nat)>) {
    forall i, j :: 0 <= i < j < |items| ==> LexLess(items[i].0, items[j].0)
  }

  /** `items` is the ascending table of the categories in `cats` with their counts. */
  ghost predicate IsCatTable(items: seq<(String, nat)>, cats: seq<String>) {
    AscendingCats(items) && CountsOf(items, cats)
  }

  /**
   * `get_cat_numbers(ls)`: `(category, count)` pairs, ascending by category,
   * one per distinct category, each count the number of records with it.
   */
  method GetCatNumbers(cons: seq<Contingency>) returns (r: seq<(String, nat)>)
    ensures IsCatTable(r, CatsOf(cons))
    ensures forall i :: 0 <= i < |r| ==> r[i].1 >= 1
    ensures SumCounts(r) == |cons|
  {
    var cats := CatsOf(cons);
    var counts, order := TallyCats(cats);
    r := SortTable(counts, order, cats);
  }

  /** The counting loop of `get_cat_numbers`: first-seen order and a count per category. */
  method TallyCats(cats: seq<String>) returns (counts: map<String, nat>, order: seq<String>)
    ensures Tally(counts, order, cats)
  {
    counts, order := map[], [];
    var i := 0;
    while i < |cats|
      invariant 0 <= i <= |cats|
      invariant Tally(counts, order, cats[..i])
    {
      var c := cats[i];
      assert cats[..i + 1] == cats[..i] + [c];
      TallyStep(counts, order, cats[..i], c);
      if c !in counts {
        counts := counts[c := 1];
        order := order + [c];
      } else {
        counts := counts[c := counts[c] + 1];
      }
      i := i + 1;
    }
    assert cats[..i] == cats;
  }

  /** `sorted(cat_numbers.items())` over the tally of `cats`. */
  method SortTable(counts: map<String, nat>, order: seq<String>, ghost cats: seq<String>) returns (r: seq<(String, nat)>)
    requires Tally(counts, order, cats)
    ensures AscendingCats(r)
    ensures CountsOf(r, cats)
    ensures forall i :: 0 <= i < |r| ==> r[i].1 >= 1
    ensures SumCounts(r) == |cats|
  {
    // `cat_numbers.items()` in insertion order, then `sorted`.
    var items := seq(|order|, j requires 0 <= j < |order| => (order[j], counts[order[j]]));
    TallyItems(counts, order, cats, items);
    var keyed := seq(|items|, j requires 0 <= j < |items| => ([items[j].0], items[j]));
    SortByKeyStrict(keyed);
    var sorted := SortByKey(keyed);
    r := Elements(sorted);
    SortedCounts(items, keyed, sorted, r, cats);
    forall j | 0 <= j < |r| ensures r[j].1 >= 1 {
      CountPositive(cats, r[j].0);
    }
    SumOfCounts(r, cats);
  }

  /** The loop state of `get_cat_numbers` after the categories `seen`. */
  predicate Tally(counts: map<String, nat>, order: seq<String>, seen: seq<String>) {
    (forall c :: c in counts ==> c in order)
    && (forall c :: c in order ==> c in counts && c in seen)
    && (forall c :: c in seen ==> c in order)
    && (forall a, b :: 0 <= a < b < |order| ==> order[a] != order[b])
    && (forall c :: c in counts ==> counts[c] == Count(seen, c))
  }

  lemma TallyStep(counts: map<String, nat>, order: seq<String>, seen: seq<String>, c: String)
    requires Tally(counts, order, seen)
    ensures c !in counts ==> Tally(counts[c := 1], order + [c], seen + [c])
    ensures c in counts ==> Tally(counts[c := counts[c] + 1], order, seen + [c])
  {
    forall k ensures Count(seen + [c], k) == Count(seen, k) + if c == k then 1 else 0 {
      CountSnoc(seen, c, k);
    }
    if c !in counts {
      CountPositive(seen, c);
    }
  }

  lemma TallyItems(counts: map<String, nat>, order: seq<String>, cats: seq<String>, items: seq<(String, nat)>)
    requires Tally(counts, order, cats)
    requires |items| == |order| && forall j :: 0 <= j < |order| ==> items[j] == (order[j], counts[order[j]])
    ensures CountsOf(items, cats)
  {
    forall c | c in cats ensures c in Keys(items) {
      var j :| 0 <= j < |order| && order[j] == c;
      assert Keys(items)[j] == c;
    }
  }

  lemma SortedCounts(items: seq<(String, nat)>, keyed: seq<(Key, (String, nat))>,
                     sorted: seq<(Key, (String, nat))>, r: seq<(String, nat)>, cats: seq<String>)
    requires CountsOf(items, cats)
    requires |keyed| == |items| && forall j :: 0 <= j < |items| ==> keyed[j] == ([items[j].0], items[j])
    requires multiset(sorted) == multiset(keyed) && StrictlySorted(sorted)
    requires r == Elements(sorted)
    ensures AscendingCats(r) && CountsOf(r, cats)
  {
    assert |sorted| == |multiset(sorted)| == |keyed|;
    forall j | 0 <= j < |sorted| ensures sorted[j].0 == [r[j].0] && r[j].0 in cats && r[j].1 == Count(cats, r[j].0) {
      assert sorted[j] in multiset(keyed);
      var a :| 0 <= a < |keyed| && keyed[a] == sorted[j];
      assert r[j] == items[a];
    }
    forall a, b | 0 <= a < b < |r| ensures LexLess(r[a].0, r[b].0) {
      SingleKeyLess(r[a].0, r[b].0);
    }
    forall c | c in cats ensures c in Keys(r) {
      var a :| 0 <= a < |items| && items[a].0 == c;
      assert keyed[a] in multiset(sorted);
      var j :| 0 <= j < |sorted| && sorted[j] == keyed[a];
      assert Keys(r)[j] == c;
    }
    forall a, b | 0 <= a < b < |r| ensures r[a].0 != r[b].0 {
      LexLessIrreflexive(r[a].0);
    }
  }

  lemma SingleKeyLess(x: String, y: String)
    ensures KeyLess([x], [y]) ==> LexLess(x, y)
  {
    if x == y {
      KeyLessIrreflexive([x]);
    }
  }

  /** Two exact, ascending count tables of the same categories are the same table. */
  lemma {:induction false} CountsUnique(a: seq<(String, nat)>, b: seq<(String, nat)>, cats: seq<String>)
    requires IsCatTable(a, cats) && IsCatTable(b, cats)
    ensures a == b
    decreases |a|
  {
    BothEmpty(a, b, cats);
    if a != [] {
      FirstKeysAgree(a, b, cats);
      TailTable(a, cats);
      TailTable(b, cats);
      CountsUnique(a[1..], b[1..], Remove(cats, a[0].0));
      SplitFirst(a);
      SplitFirst(b);
    }
  }

  lemma SplitFirst(a: seq<(String, nat)>)
    requires a != []
    ensures a == [a[0]] + a[1..]
  {
  }

  /** Dropping the first entry leaves the table of the other categories. */
  lemma TailTable(a: seq<(String, nat)>, cats: seq<String>)
    requires a != [] && IsCatTable(a, cats)
    ensures IsCatTable(a[1..], Remove(cats, a[0].0))
  {
    TailCounts(a, cats);
  }

  lemma BothEmpty(a: seq<(String, nat)>, b: seq<(String, nat)>, cats: seq<String>)
    requires CountsOf(a, cats) && CountsOf(b, cats)
    ensures a == [] <==> b == []
  {
    if a != [] {
      assert a[0].0 in cats;
      assert Keys(b) != [];
    }
    if b != [] {
      assert b[0].0 in cats;
      assert Keys(a) != [];
    }
  }

  lemma FirstKeysAgree(a: seq<(String, nat)>, b: seq<(String, nat)>, cats: seq<String>)
    requires a != [] && b != []
    requires AscendingCats(a) && CountsOf(a, cats)
    requires AscendingCats(b) && CountsOf(b, cats)
    ensures a[0] == b[0]
  {
    assert b[0].0 in Keys(a);
    var i :| 0 <= i < |a| && a[i].0 == b[0].0;
    assert a[0].0 in Keys(b);
    var j :| 0 <= j < |b| && b[j].0 == a[0].0;
    LexLessAsymmetric(a[0].0, b[0].0);
  }

  // ---------------------------------------------------------------- dump layout

  /** What the dump reads of one record. */
  datatype View = View(submitter: String, nercCat: String, id: String, fullStr: String)

  function ViewOf(c: Contingency): View
    reads c
  {
    View(c.submitter, c.nercCat, c.id, c.fullStr)
  }

  function Views(cons: seq<Contingency>): (r: seq<View>)
    reads set i | 0 <= i < |cons| :: cons[i]
    ensures |r| == |cons| && forall i :: 0 <= i < |cons| ==> r[i] == ViewOf(cons[i])
  {
    seq(|cons|, i requires 0 <= i < |cons| reads set i | 0 <= i < |cons| :: cons[i] => ViewOf(cons[i]))
  }

  /** The default `sort_func`: `(submitter, nerc_cat, id)`. */
  function DumpKey(v: View): Key {
    [v.submitter, v.nercCat, v.id]
  }

  /** Each view paired with its sort key. */
  function Keyed(vs: seq<View>): (r: seq<(Key, View)>)
    ensures Elements(r) == vs
    ensures forall p :: p in multiset(r) ==> p.0 == DumpKey(p.1)
  {
    var r := seq(|vs|, i requires 0 <= i < |vs| => (DumpKey(vs[i]), vs[i]));
    assert forall p :: p in multiset(r) ==> p in r;
    r
  }

  /** `sorted(contingencies, key=sort_func)`. */
  function SortedViews(vs: seq<View>): (r: seq<View>)
    ensures |r| == |vs|
  {
    var sorted := SortByKey(Keyed(vs));
    assert |sorted| == |multiset(sorted)| == |vs|;
    Elements(sorted)
  }

  /** The dumped order is a permutation of the records, ascending by `(submitter, nerc_cat, id)`. */
  lemma SortedViewsOrdered(vs: seq<View>)
    ensures multiset(SortedViews(vs)) == multiset(vs)
    ensures var r := SortedViews(vs);
      forall i, j :: 0 <= i < j < |r| ==> KeyLe(DumpKey(r[i]), DumpKey(r[j]))
  {
    var sorted := SortByKey(Keyed(vs));
    forall i | 0 <= i < |sorted| ensures sorted[i].0 == DumpKey(sorted[i].1) {
      assert sorted[i] in multiset(sorted);
    }
  }

  function TitleLine(fileName: String, asctime: String): String {
    "/* " + fileName + ", Generated " + asctime + "\n"
  }

  const COUNT_TITLE: String := "/* Category Count:\n"

  // One category line: opener, two tabs, the count right-aligned in 4, " - ", the category.
  function CategoryLine(item: (String, nat)): String {
    "/*\t\t" + PadLeft(NatToString(item.1), 4) + " - " + item.0 + "\n"
  }

  function CategoryBlock(nums: seq<(String, nat)>): (r: seq<String>)
    ensures |r| == |nums| && forall k :: 0 <= k < |nums| ==> r[k] == CategoryLine(nums[k])
  {
    seq(|nums|, k requires 0 <= k < |nums| => CategoryLine(nums[k]))
  }

  /** The banner line that opens a submitter's records. */
  function Banner(submitter: String): String {
    "/* \t\t\t\t\tContingency Definitions Submitted by: " + submitter + "\n"
  }

  /** `prev_submitter` after the records `done`: the last one's submitter, `''` at the start. */
  function PrevSubmitter(done: seq<View>): String {
    if done == [] then "" else done[|done| - 1].submitter
  }

  /** The writes for one record, given the submitter of the record before it. */
  function RecordWrites(v: View, prev: String): seq<String> {
    (if v.submitter != prev then [SEP_LINE, Banner(v.submitter)] else []) + [SEP_LINE, v.fullStr]
  }

  /** The writes of the record loop for the records `vs`, in order. */
  function RecordsBlock(vs: seq<View>): seq<String>
    decreases |vs|
  {
    if vs == [] then []
    else
      var init := vs[..|vs| - 1];
      RecordsBlock(init) + RecordWrites(vs[|vs| - 1], PrevSubmitter(init))
  }

  lemma RecordsBlockSnoc(done: seq<View>, v: View)
    ensures RecordsBlock(done + [v]) == RecordsBlock(done) + RecordWrites(v, PrevSubmitter(done))
    ensures PrevSubmitter(done + [v]) == v.submitter
  {
    assert (done + [v])[..|done|] == done;
  }

  /** Everything `dump_contingencies` writes, given the category table `nums`. */
  function DumpText(fileName: String, asctime: String, nums: seq<(String, nat)>, sorted: seq<View>): seq<String> {
    [TitleLine(fileName, asctime), SEP_LINE, COUNT_TITLE] + CategoryBlock(nums)
      + RecordsBlock(sorted) + [SEP_LINE, "END\n"]
  }

  /**
   * `dump_contingencies(file_name, contingencies)` as the list of strings it
   * writes; `asctime` stands for `time.asctime()` and `fileName` for
   * `Path(file_name).name`.
   */
  method DumpContingencies(fileName: String, asctime: String, cons: seq<Contingency>)
    returns (out: seq<String>, ghost nums: seq<(String, nat)>)
    ensures IsCatTable(nums, CatsOf(cons))
    ensures out == DumpText(fileName, asctime, nums, SortedViews(Views(cons)))
  {
    var catNumbers := GetCatNumbers(cons);
    var views := Views(cons);
    out := WriteDump(fileName, asctime, catNumbers, SortedViews(views));
    assert Views(cons) == views;
    nums := catNumbers;
  }

  /** The writes of `dump_contingencies` once the table and the record order are known. */
  method WriteDump(fileName: String, asctime: String, nums: seq<(String, nat)>, sorted: seq<View>)
    returns (out: seq<String>)
    ensures out == DumpText(fileName, asctime, nums, sorted)
  {
    out := WriteCategories([TitleLine(fileName, asctime), SEP_LINE, COUNT_TITLE], nums);
    out := WriteRecords(out, sorted);
    out := out + [SEP_LINE, "END\n"];
  }

  /** The category loop of `dump_contingencies`: one line per table entry, in order. */
  method WriteCategories(head: seq<String>, nums: seq<(String, nat)>) returns (out: seq<String>)
    ensures out == head + CategoryBlock(nums)
  {
    out := head;
    var k := 0;
    while k < |nums|
      invariant 0 <= k <= |nums|
      invariant out == head + CategoryBlock(nums[..k])
    {
      assert nums[..k + 1] == nums[..k] + [nums[k]];
      out := out + [CategoryLine(nums[k])];
      k := k + 1;
    }
    assert nums[..k] == nums;
  }

  /** The record loop of `dump_contingencies`: appends each record's writes to `out`. */
  method WriteRecords(head: seq<String>, sorted: seq<View>) returns (out: seq<String>)
    ensures out == head + RecordsBlock(sorted)
  {
    out := head;
    var prev := "";
    var i := 0;
    while i < |sorted|
      invariant 0 <= i <= |sorted|
      invariant prev == PrevSubmitter(sorted[..i])
      invariant out == head + RecordsBlock(sorted[..i])
    {
      var v := sorted[i];
      ghost var before := out;
      ghost var writes := RecordWrites(v, prev);
      if v.submitter != prev {
        prev := v.submitter;
        out := out + [SEP_LINE, Banner(v.submitter)];
      }
      out := out + [SEP_LINE, v.fullStr];
      assert out == before + writes;
      RecordsStep(head, sorted, i, before);
      i := i + 1;
    }
    assert sorted[..i] == sorted;
  }

  lemma RecordsStep(head: seq<String>, sorted: seq<View>, i: nat, before: seq<String>)
    requires i < |sorted| && before == head + RecordsBlock(sorted[..i])
    ensures before + RecordWrites(sorted[i], PrevSubmitter(sorted[..i])) == head + RecordsBlock(sorted[..i + 1])
    ensures PrevSubmitter(sorted[..i + 1]) == sorted[i].submitter
  {
    assert sorted[..i + 1] == sorted[..i] + [sorted[i]];
    RecordsBlockSnoc(sorted[..i], sorted[i]);
  }

  /** The dump ends with a separator and `END`. */
  lemma DumpEnds(fileName: String, asctime: String, nums: seq<(String, nat)>, sorted: seq<View>)
    ensures var t := DumpText(fileName, asctime, nums, sorted);
      |t| >= 5 && t[|t| - 2..] == [SEP_LINE, "END\n"]
  {
  }

  /** How many records open a new submitter run. */
  function Changes(vs: seq<View>): nat
    decreases |vs|
  {
    if vs == [] then 0
    else
      var init := vs[..|vs| - 1];
      Changes(init) + if vs[|vs| - 1].submitter != PrevSubmitter(init) then 1 else 0
  }

  /** Two writes per record and two per submitter banner. */
  lemma {:induction false} RecordsBlockLength(vs: seq<View>)
    ensures |RecordsBlock(vs)| == 2 * |vs| + 2 * Changes(vs)
    decreases |vs|
  {
    if vs != [] {
      RecordsBlockLength(vs[..|vs| - 1]);
    }
  }

  /** Every record's text appears verbatim, right after a separator line. */
  lemma {:induction false} RecordsBlockHasText(vs: seq<View>, k: nat)
    requires k < |vs|
    ensures exists p :: (0 < p < |RecordsBlock(vs)|
      && RecordsBlock(vs)[p - 1] == SEP_LINE && RecordsBlock(vs)[p] == vs[k].fullStr)
    decreases |vs|
  {
    var init := vs[..|vs| - 1];
    var w := RecordWrites(vs[|vs| - 1], PrevSubmitter(init));
    var b := RecordsBlock(init);
    assert RecordsBlock(vs) == b + w;
    if k < |vs| - 1 {
      RecordsBlockHasText(init, k);
      var p :| 0 < p < |b| && b[p - 1] == SEP_LINE && b[p] == init[k].fullStr;
      assert (b + w)[p - 1] == SEP_LINE && (b + w)[p] == vs[k].fullStr;
    } else {
      var p := |b + w| - 1;
      assert (b + w)[p - 1] == SEP_LINE && (b + w)[p] == vs[k].fullStr;
    }
  }

  /**
   * A banner comes before a record exactly when its submitter differs from
   * the previous record's (from `''` for the first): the last record adds
   * four writes (separator, banner, separator, text) in that case and two
   * (separator, text) otherwise.
   */
  lemma BannerIff(vs: seq<View>)
    requires vs != []
    ensures var init := vs[..|vs| - 1];
      var last := vs[|vs| - 1];
      var added := RecordsBlock(vs)[|RecordsBlock(init)|..];
      && (|added| == 4 <==> last.submitter != PrevSubmitter(init))
      && (|added| == 4 || |added| == 2)
      && added[0] == SEP_LINE && added[|added| - 2] == SEP_LINE && added[|added| - 1] == last.fullStr
      && (|added| == 4 ==> added[1] == Banner(last.submitter))
  {
    var init := vs[..|vs| - 1];
    var last := vs[|vs| - 1];
    assert RecordsBlock(vs)[|RecordsBlock(init)|..] == RecordWrites(last, PrevSubmitter(init));
  }

}
