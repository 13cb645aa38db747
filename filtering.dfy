// The stages of main.py after the rename: the bus filter, the post-filter
// merge, duplicate linking, the six output groups and the lookup-table add-ins.
// The script's `bus_filtered_con_set` and `output_file_groups` are the fields
// of one `Filtered`; the bus list is read once, up front.
module Filtering {
  import opened Wrappers
  import opened Text
  import opened Sorting
  import opened Contingencies
  import opened Script

  // ---------------------------------------------------------------------------
  // The bus list (main.py:44-45)

  /** `[x for x in xs if x]`: the non-empty strings of `xs`, in order. */
  function NonEmpty(xs: seq<String>): (r: seq<String>)
    ensures forall x :: x in r <==> x in xs && x != []
    ensures forall x :: x != [] ==> multiset(r)[x] == multiset(xs)[x]
    ensures multiset(r)[[]] == 0
  {
    if xs == [] then []
    else
      assert xs == [xs[0]] + xs[1..];
      (if xs[0] != [] then [xs[0]] else []) + NonEmpty(xs[1..])
  }

  /** `BUSES`: the non-empty lines of the bus file, sorted. */
  function Buses(text: String): seq<String> {
    var kept := NonEmpty(SplitOn(text, "\n"));
    Elements(SortByKey(seq(|kept|, i requires 0 <= i < |kept| => ([kept[i]], kept[i]))))
  }

  /** Each pair of `xs` is a string with the one-element key made of it. */
  ghost predicate SelfKeyed(xs: seq<(Key, String)>) {
    forall e :: e in xs ==> e.0 == [e.1]
  }

  /**
   * The bus list holds exactly the non-empty lines of the file, as often as
   * they occur there, none of them holding a line break, in ascending order.
   */
  lemma BusesSpec(text: String)
    ensures var buses := Buses(text);
      && multiset(buses) == multiset(NonEmpty(SplitOn(text, "\n")))
      && (forall b :: b in buses ==> b != [] && !Contains(b, "\n"))
      && (forall i, j :: 0 <= i < j < |buses| ==> buses[i] == buses[j] || LexLess(buses[i], buses[j]))
  {
    var pieces := SplitOn(text, "\n");
    var kept := NonEmpty(pieces);
    var keyed := seq(|kept|, i requires 0 <= i < |kept| => ([kept[i]], kept[i]));
    var sorted := SortByKey(keyed);
    var buses := Elements(sorted);
    assert Elements(keyed) == kept;
    assert SelfKeyed(sorted) by {
      forall e | e in sorted ensures e.0 == [e.1] {
        assert e in multiset(sorted);
      }
    }
    forall b | b in buses ensures b != [] && !Contains(b, "\n") {
      assert b in multiset(buses);
      assert b in kept;
      var k :| 0 <= k < |pieces| && pieces[k] == b;
    }
    forall i, j | 0 <= i < j < |buses| ensures buses[i] == buses[j] || LexLess(buses[i], buses[j]) {
      assert sorted[i] in sorted && sorted[j] in sorted;
      assert KeyLe(sorted[i].0, sorted[j].0);
      if buses[i] != buses[j] {
        assert KeyLess([buses[i]], [buses[j]]);
      }
    }
  }

  // ---------------------------------------------------------------------------
  // The bus filter (main.py:117-120)

  /** `"BUS " + b`, the text a statement names bus `b` with. */
  function BusRef(b: String): String {
    "BUS " + b
  }

  /** `any(f"BUS {bus}" in lines_str for bus in buses)`. */
  function AnyBus(linesStr: String, buses: seq<String>): (r: bool)
    ensures r <==> exists k :: 0 <= k < |buses| && Contains(linesStr, BusRef(buses[k]))
  {
    if buses == [] then false
    else if Contains(linesStr, BusRef(buses[0])) then true
    else
      var r := AnyBus(linesStr, buses[1..]);
      assert forall k :: 1 <= k < |buses| ==> buses[k] == buses[1..][k - 1];
      r
  }

  /**
   * The filter condition on a record's statements and NERC category: some bus
   * of the list is named in the statements, and "P6." occurs nowhere in the
   * category.
   */
  predicate Survives(linesStr: String, nercCat: String, buses: seq<String>) {
    AnyBus(linesStr, buses) && !Contains(nercCat, "P6.")
  }

  /** Whether a record passes the bus filter. */
  predicate Passes(c: Contingency, buses: seq<String>) {
    Survives(c.linesStr, c.nercCat, buses)
  }

  /** The veto is a substring test: a category with "P6." anywhere, not only at the start, is dropped. */
  lemma VetoAnywhere()
    ensures !Survives("OPEN BRANCH FROM BUS 1001 TO BUS 1002 CKT 1", "EE-P6.2", ["1001"])
  {
    assert OccursAt("EE-P6.2", "P6.", 3);
  }

  /**
   * A bus is matched as a substring too: bus `1001` matches a statement about
   * bus `10012`, while a list without it lets the record go.
   */
  lemma BusPrefixMatches()
    ensures AnyBus("OPEN BRANCH FROM BUS 10012 TO BUS 2002 CKT 1", ["1001"])
    ensures !AnyBus("OPEN BRANCH FROM BUS 10012 TO BUS 2002 CKT 1", [])
  {
    var s := "OPEN BRANCH FROM BUS 10012 TO BUS 2002 CKT 1";
    assert BusRef("1001") == "BUS 1001";
    var pre, post := "OPEN BRANCH FROM ", "2 TO BUS 2002 CKT 1";
    assert s == pre + "BUS 1001" + post;
    assert s[|pre|..|pre| + 8] == "BUS 1001";
    assert OccursAt(s, BusRef("1001"), 17);
  }

  /** `bus_filtered_con_set` as the filter leaves it: the records of `s` that pass. */
  function BusFilter(s: map<String, Contingency>, buses: seq<String>): (r: map<String, Contingency>)
    ensures r.Keys <= s.Keys
    ensures forall t :: t in r <==> t in s && Passes(s[t], buses)
    ensures forall t :: t in r ==> r[t] == s[t]
  {
    map t | t in s && Passes(s[t], buses) :: s[t]
  }

  /** Filtering a set keyed by text keeps it keyed by text. */
  lemma BusFilterKeyed(s: map<String, Contingency>, buses: seq<String>)
    requires KeyedByText(s)
    ensures KeyedByText(BusFilter(s, buses))
  {
  }

  /** No two positions of `xs` hold the same record. */
  predicate Distinct(xs: seq<Contingency>) {
    forall i, j :: 0 <= i < j < |xs| ==> xs[i] != xs[j]
  }

  // ---------------------------------------------------------------------------
  // The statement index (main.py:141-143, 178-180)

  /**
   * `idx` lists, under each statement key, exactly the records of `objs` with
   * those statements, each once; every list is non-empty.
   */
  ghost predicate LineIndex(idx: map<String, seq<Contingency>>, objs: set<Contingency>) {
    && (forall L :: L in idx ==> idx[L] != [] && Distinct(idx[L]))
    && (forall L, c :: L in idx && c in idx[L] ==> c in objs && c.linesStr == L)
    && (forall c :: c in objs ==> c.linesStr in idx && c in idx[c.linesStr])
  }

  /** The statement keys of the records in `objs`. */
  ghost function LinesOf(objs: set<Contingency>): set<String> {
    set c | c in objs :: c.linesStr
  }

  /** A line index has exactly the statement keys of its records. */
  lemma LineIndexKeys(idx: map<String, seq<Contingency>>, objs: set<Contingency>)
    requires LineIndex(idx, objs)
    ensures idx.Keys == LinesOf(objs)
  {
    forall L | L in idx ensures L in LinesOf(objs) {
      var c := idx[L][0];
      assert c in idx[L];
      assert c in objs && c.linesStr == L;
    }
  }

  /** `for x in objs: d[x.lines_str].append(x)` into a fresh `defaultdict(list)`. */
  method BuildLineIndex(objs: set<Contingency>) returns (idx: map<String, seq<Contingency>>)
    ensures LineIndex(idx, objs)
  {
    var xs := SetToSeq(objs);
    idx := map[];
    ghost var seen: set<Contingency> := {};
    for i := 0 to |xs|
      invariant LineIndex(idx, seen) && seen <= objs
      invariant forall j :: 0 <= j < i ==> xs[j] in seen
      invariant forall j :: i <= j < |xs| ==> xs[j] !in seen
    {
      var x := xs[i];
      if x.linesStr in idx {
        assert x !in idx[x.linesStr];
        idx := idx[x.linesStr := idx[x.linesStr] + [x]];
      } else {
        idx := idx[x.linesStr := [x]];
      }
      seen := seen + {x};
    }
    assert seen == objs;
  }

  /** `for other in others: other.duplicates.append(con)`. */
  method AppendToAll(others: seq<Contingency>, con: Contingency)
    requires Distinct(others)
    modifies (set o | o in others)`duplicates
    ensures forall o :: o in others ==> o.duplicates == old(o.duplicates) + [con]
  {
    for k := 0 to |others|
      invariant forall o :: o in others[..k] ==> o.duplicates == old(o.duplicates) + [con]
      invariant forall o :: o in others[k..] ==> o.duplicates == old(o.duplicates)
    {
      var o := others[k];
      assert others[k..] == [o] + others[k + 1..];
      o.duplicates := o.duplicates + [con];
      assert others[..k + 1] == others[..k] + [o];
    }
    assert others[..|others|] == others;
  }

  // ---------------------------------------------------------------------------
  // The post-filter merge (main.py:141-157)

  /** The records of `ms[lo..hi]` whose statements are `L`, in order. */
  function Echoes(ms: seq<Contingency>, lo: int, hi: int, L: String): (r: seq<Contingency>)
    requires 0 <= lo <= hi <= |ms|
    ensures |r| <= hi - lo
    ensures forall k :: 0 <= k < |r| ==> r[k].linesStr == L
    ensures forall k :: lo <= k < hi && ms[k].linesStr == L ==> ms[k] in r
    decreases hi - lo
  {
    if lo == hi then []
    else Echoes(ms, lo, hi - 1, L) + (if ms[hi - 1].linesStr == L then [ms[hi - 1]] else [])
  }

  /** The echoes of `L` in `ms[lo..hi]` are records of `ms[lo..hi]`, in their order there. */
  lemma {:induction false} EchoesFrom(ms: seq<Contingency>, lo: int, hi: int, L: String)
    requires 0 <= lo <= hi <= |ms|
    ensures forall x :: x in Echoes(ms, lo, hi, L) ==> x in ms[lo..hi]
    decreases hi - lo
  {
    if lo < hi {
      EchoesFrom(ms, lo, hi - 1, L);
      assert ms[lo..hi] == ms[lo..hi - 1] + [ms[hi - 1]];
    }
  }

  /**
   * Whether `ms[j]` finds its statements not yet a key: neither among `keys0`
   * nor among the records merged before it.
   */
  ghost predicate NewKey(keys0: set<String>, ms: seq<Contingency>, j: int)
    requires 0 <= j < |ms|
  {
    ms[j].linesStr !in keys0 && forall k :: 0 <= k < j ==> ms[k].linesStr != ms[j].linesStr
  }

  /** The statement keys of the index once `ms[..i]` have been merged into one with keys `keys0`. */
  ghost function SeenKeys(keys0: set<String>, ms: seq<Contingency>, i: int): set<String>
    requires 0 <= i <= |ms|
  {
    keys0 + set k | 0 <= k < i :: ms[k].linesStr
  }

  /** A record opens a new key exactly when its statements are not yet seen; then they are. */
  lemma SeenKeysStep(keys0: set<String>, ms: seq<Contingency>, i: int)
    requires 0 < i <= |ms|
    ensures NewKey(keys0, ms, i - 1) <==> ms[i - 1].linesStr !in SeenKeys(keys0, ms, i - 1)
    ensures SeenKeys(keys0, ms, i) == SeenKeys(keys0, ms, i - 1) + {ms[i - 1].linesStr}
  {
    if !NewKey(keys0, ms, i - 1) && ms[i - 1].linesStr !in keys0 {
      var k :| 0 <= k < i - 1 && ms[k].linesStr == ms[i - 1].linesStr;
      assert ms[k].linesStr in SeenKeys(keys0, ms, i - 1);
    }
  }

  /**
   * The records in the index once `made[..i]` have been merged: those of
   * `olds`, and each record of `made[..i]` that opened a key of its own.
   */
  ghost predicate Joined(pop: set<Contingency>, olds: set<Contingency>, keys0: set<String>, made: seq<Contingency>, i: int)
    requires 0 <= i <= |made|
  {
    && olds <= pop
    && (forall j :: 0 <= j < |made| ==> (made[j] in pop <==> j < i && NewKey(keys0, made, j)))
  }

  /**
   * The `duplicates` lists once `made[..i]` have been merged: a record of
   * `olds` has gained every record of `made[..i]` with its statements, a
   * record of `made` that joined the index every later one with its
   * statements, and any other record of `made` nothing.
   */
  ghost predicate DupsAfter(dups: map<Contingency, seq<Contingency>>, d0: map<Contingency, seq<Contingency>>,
                            made: seq<Contingency>, pop: set<Contingency>, i: int)
    requires 0 <= i <= |made|
  {
    && (forall o :: o in d0 ==> o in dups && dups[o] == d0[o] + Echoes(made, 0, i, o.linesStr))
    && (forall j :: 0 <= j < |made| ==>
          made[j] in dups && dups[made[j]] == if j < i && made[j] in pop then Echoes(made, j + 1, i, made[j].linesStr) else [])
  }

  /** `other.duplicates.append(con)` for each record `other` of `pop` with the statements of `con`. */
  ghost function Appended(dups: map<Contingency, seq<Contingency>>, pop: set<Contingency>, con: Contingency): map<Contingency, seq<Contingency>> {
    map o | o in dups :: if o in pop && o.linesStr == con.linesStr then dups[o] + [con] else dups[o]
  }

  /** Merging `made[i]`: it joins the index exactly when it opens a key. */
  lemma JoinedStep(olds: set<Contingency>, keys0: set<String>, made: seq<Contingency>, pop: set<Contingency>, i: int)
    requires 0 < i <= |made| && Distinct(made) && forall j :: 0 <= j < |made| ==> made[j] !in olds
    requires Joined(pop, olds, keys0, made, i - 1)
    ensures Joined(if NewKey(keys0, made, i - 1) then pop + {made[i - 1]} else pop, olds, keys0, made, i)
  {
  }

  /**
   * The filtered set once the records `ms[..n]` (with texts `ts[..n]`) have
   * been merged into `s`, whose statement keys are `keys0`: each record that
   * opens a new statement key joins the set, the others do not.
   */
  ghost function Merged(s: map<String, Contingency>, keys0: set<String>, ms: seq<Contingency>, ts: seq<String>, n: int): map<String, Contingency>
    requires 0 <= n <= |ms| && n <= |ts|
    decreases n
  {
    if n == 0 then s
    else
      var acc := Merged(s, keys0, ms, ts, n - 1);
      if NewKey(keys0, ms, n - 1) then AddKeep(acc, ts[n - 1], ms[n - 1]) else acc
  }

  /**
   * The merged set holds the set it started from, unchanged, and the text of
   * each record that opened a new statement key, and nothing else.
   */
  lemma {:induction false} MergedSpec(s: map<String, Contingency>, keys0: set<String>, ms: seq<Contingency>, ts: seq<String>, n: int)
    requires 0 <= n <= |ms| && n <= |ts|
    ensures Merged(s, keys0, ms, ts, n).Keys == s.Keys + (set j | 0 <= j < n && NewKey(keys0, ms, j) :: ts[j])
    ensures forall t :: t in s ==> Merged(s, keys0, ms, ts, n)[t] == s[t]
    decreases n
  {
    if n > 0 {
      MergedSpec(s, keys0, ms, ts, n - 1);
      var prefix := set j | 0 <= j < n - 1 && NewKey(keys0, ms, j) :: ts[j];
      var all := set j | 0 <= j < n && NewKey(keys0, ms, j) :: ts[j];
      var last := if NewKey(keys0, ms, n - 1) then {ts[n - 1]} else {};
      forall t | t in all ensures t in prefix + last {
        var j :| 0 <= j < n && NewKey(keys0, ms, j) && ts[j] == t;
        if j < n - 1 {
          assert t in prefix;
        }
      }
      assert prefix + last <= all;
    }
  }

  /** Adding a record to a line index under its own statements. */
  lemma LineIndexAdd(idx: map<String, seq<Contingency>>, pop: set<Contingency>, con: Contingency)
    requires LineIndex(idx, pop) && con !in pop
    ensures con.linesStr in idx ==> LineIndex(idx, pop)
    ensures con.linesStr !in idx ==> LineIndex(idx[con.linesStr := [con]], pop + {con})
  {
  }

  /** The ghost state of the merge: the index, the records in it, the `duplicates` lists and the set. */
  datatype MergeState = MergeState(idx: map<String, seq<Contingency>>, pop: set<Contingency>,
                                   dups: map<Contingency, seq<Contingency>>, acc: map<String, Contingency>)

  /** Merging one record `con`, whose text is `t`, into the state `st`. */
  ghost function Step(st: MergeState, con: Contingency, t: String): MergeState {
    var stays := con.linesStr in st.idx;
    MergeState(if stays then st.idx else st.idx[con.linesStr := [con]],
               if stays then st.pop else st.pop + {con},
               Appended(st.dups, st.pop, con),
               if stays then st.acc else AddKeep(st.acc, t, con))
  }

  /** The state once `made[..i]`, whose texts are `ts[..i]`, have been merged into `st0`. */
  ghost function Folded(st0: MergeState, made: seq<Contingency>, ts: seq<String>, i: int): MergeState
    requires 0 <= i <= |made| <= |ts|
    decreases i
  {
    if i == 0 then st0 else Step(Folded(st0, made, ts, i - 1), made[i - 1], ts[i - 1])
  }

  /** One step of the merge keeps the `duplicates` lists of the records of `olds` in step. */
  lemma DupsStepOlds(st: MergeState, d0: map<Contingency, seq<Contingency>>, made: seq<Contingency>, ts: seq<String>, i: int)
    requires 0 < i <= |made| <= |ts| && d0.Keys <= st.pop
    requires forall o :: o in d0 ==> o in st.dups && st.dups[o] == d0[o] + Echoes(made, 0, i - 1, o.linesStr)
    ensures var st' := Step(st, made[i - 1], ts[i - 1]);
      forall o :: o in d0 ==> o in st'.dups && st'.dups[o] == d0[o] + Echoes(made, 0, i, o.linesStr)
  {
  }

  /** One step of the merge keeps the `duplicates` lists of the records of `made` in step. */
  lemma DupsStepMade(st: MergeState, olds: set<Contingency>, keys0: set<String>, made: seq<Contingency>, ts: seq<String>, i: int)
    requires 0 < i <= |made| <= |ts|
    requires Joined(st.pop, olds, keys0, made, i - 1) && (made[i - 1].linesStr in st.idx) == !NewKey(keys0, made, i - 1)
    requires forall j :: 0 <= j < |made| ==>
      made[j] in st.dups && st.dups[made[j]] == if j < i - 1 && made[j] in st.pop then Echoes(made, j + 1, i - 1, made[j].linesStr) else []
    ensures var st' := Step(st, made[i - 1], ts[i - 1]);
      forall j :: 0 <= j < |made| ==>
        made[j] in st'.dups && st'.dups[made[j]] == if j < i && made[j] in st'.pop then Echoes(made, j + 1, i, made[j].linesStr) else []
  {
  }

  /** The statement keys of the index once `made[..i]` have been merged. */
  lemma {:induction false} FoldedKeys(st0: MergeState, keys0: set<String>, made: seq<Contingency>, ts: seq<String>, i: int)
    requires st0.idx.Keys == keys0 && 0 <= i <= |made| <= |ts|
    ensures Folded(st0, made, ts, i).idx.Keys == SeenKeys(keys0, made, i)
    decreases i
  {
    if i == 0 {
      assert SeenKeys(keys0, made, 0) == keys0;
    } else {
      FoldedKeys(st0, keys0, made, ts, i - 1);
      SeenKeysStep(keys0, made, i);
    }
  }

  /** `made[i - 1]` finds its statements already a key exactly when it does not open a new one. */
  lemma FoldedStays(st0: MergeState, keys0: set<String>, made: seq<Contingency>, ts: seq<String>, i: int)
    requires st0.idx.Keys == keys0 && 0 < i <= |made| <= |ts|
    ensures (made[i - 1].linesStr in Folded(st0, made, ts, i - 1).idx) == !NewKey(keys0, made, i - 1)
  {
    FoldedKeys(st0, keys0, made, ts, i - 1);
    SeenKeysStep(keys0, made, i);
  }

  /** The set once `made[..i]` have been merged. */
  lemma {:induction false} FoldedAcc(st0: MergeState, keys0: set<String>, made: seq<Contingency>, ts: seq<String>, i: int)
    requires st0.idx.Keys == keys0 && 0 <= i <= |made| <= |ts|
    ensures Folded(st0, made, ts, i).acc == Merged(st0.acc, keys0, made, ts, i)
    decreases i
  {
    if i > 0 {
      FoldedAcc(st0, keys0, made, ts, i - 1);
      FoldedStays(st0, keys0, made, ts, i);
    }
  }

  /** The records in the index once `made[..i]` have been merged. */
  lemma {:induction false} FoldedPop(st0: MergeState, olds: set<Contingency>, keys0: set<String>,
                                     made: seq<Contingency>, ts: seq<String>, i: int)
    requires st0.idx.Keys == keys0 && st0.pop == olds && 0 <= i <= |made| <= |ts|
    requires Distinct(made) && forall j :: 0 <= j < |made| ==> made[j] !in olds
    ensures Joined(Folded(st0, made, ts, i).pop, olds, keys0, made, i)
    decreases i
  {
    if i > 0 {
      FoldedPop(st0, olds, keys0, made, ts, i - 1);
      FoldedStays(st0, keys0, made, ts, i);
      JoinedStep(olds, keys0, made, Folded(st0, made, ts, i - 1).pop, i);
    }
  }

  /** The records in the index only ever grow. */
  lemma {:induction false} FoldedKeeps(st0: MergeState, made: seq<Contingency>, ts: seq<String>, i: int)
    requires 0 <= i <= |made| <= |ts|
    ensures st0.pop <= Folded(st0, made, ts, i).pop
    decreases i
  {
    if i > 0 {
      FoldedKeeps(st0, made, ts, i - 1);
    }
  }

  /** The `duplicates` lists of the records of `olds` once `made[..i]` have been merged. */
  lemma {:induction false} FoldedOlds(st0: MergeState, d0: map<Contingency, seq<Contingency>>,
                                      made: seq<Contingency>, ts: seq<String>, i: int)
    requires st0.pop == d0.Keys && 0 <= i <= |made| <= |ts|
    requires forall o :: o in d0 ==> o in st0.dups && st0.dups[o] == d0[o]
    ensures var st := Folded(st0, made, ts, i);
      forall o :: o in d0 ==> o in st.dups && st.dups[o] == d0[o] + Echoes(made, 0, i, o.linesStr)
    decreases i
  {
    if i > 0 {
      FoldedOlds(st0, d0, made, ts, i - 1);
      FoldedKeeps(st0, made, ts, i - 1);
      DupsStepOlds(Folded(st0, made, ts, i - 1), d0, made, ts, i);
    }
  }

  /** The `duplicates` lists of the records of `made` once `made[..i]` have been merged. */
  lemma {:induction false} FoldedMade(st0: MergeState, olds: set<Contingency>, keys0: set<String>,
                                      made: seq<Contingency>, ts: seq<String>, i: int)
    requires st0.idx.Keys == keys0 && st0.pop == olds && 0 <= i <= |made| <= |ts|
    requires Distinct(made) && forall j :: 0 <= j < |made| ==> made[j] !in olds
    requires forall j :: 0 <= j < |made| ==> made[j] in st0.dups && st0.dups[made[j]] == []
    ensures var st := Folded(st0, made, ts, i);
      forall j :: 0 <= j < |made| ==>
        made[j] in st.dups && st.dups[made[j]] == if j < i && made[j] in st.pop then Echoes(made, j + 1, i, made[j].linesStr) else []
    decreases i
  {
    if i > 0 {
      FoldedMade(st0, olds, keys0, made, ts, i - 1);
      FoldedPop(st0, olds, keys0, made, ts, i - 1);
      FoldedStays(st0, keys0, made, ts, i);
      DupsStepMade(Folded(st0, made, ts, i - 1), olds, keys0, made, ts, i);
    }
  }

  // ---------------------------------------------------------------------------
  // Duplicate linking (main.py:178-181, 198-203)

  /** `[c for c in ls if c != con]`: the records of `ls` whose text is not that of `con`, in order. */
  function Others(ls: seq<Contingency>, con: Contingency): (r: seq<Contingency>)
    reads (set c | c in ls)`fullStr, con`fullStr
    ensures forall k :: 0 <= k < |r| ==> r[k] in ls && r[k].fullStr != con.fullStr
    ensures forall k :: 0 <= k < |ls| && ls[k].fullStr != con.fullStr ==> ls[k] in r
    ensures Distinct(ls) ==> Distinct(r)
    decreases |ls|
  {
    if ls == [] then []
    else
      var init, last := ls[..|ls| - 1], ls[|ls| - 1];
      assert forall k :: 0 <= k < |init| ==> init[k] == ls[k];
      Others(init, con) + (if last.fullStr != con.fullStr then [last] else [])
  }

  /**
   * The records of the set `s` other than the one with text `t` whose
   * statements are `L`: the sisters linking gives that record.
   */
  ghost function Sisters(s: map<String, Contingency>, L: String, t: String): set<Contingency> {
    set u | u in s && u != t && s[u].linesStr == L :: s[u]
  }

  /** The record with text `b` is a sister of the one with text `a` exactly when the texts differ and the statements agree. */
  lemma SisterOf(s: map<String, Contingency>, a: String, b: String)
    requires KeyedByText(s) && a in s && b in s
    ensures s[b] in Sisters(s, s[a].linesStr, a) <==> b != a && s[b].linesStr == s[a].linesStr
  {
    forall u | u in s && s[u] == s[b] ensures u == b {
      assert u == s[u].fullStr;
    }
  }

  /** Being sisters is symmetric, and no record is its own sister. */
  lemma SistersSymmetric(s: map<String, Contingency>, a: String, b: String)
    requires KeyedByText(s) && a in s && b in s
    ensures s[a] !in Sisters(s, s[a].linesStr, a)
    ensures s[b] in Sisters(s, s[a].linesStr, a) <==> s[a] in Sisters(s, s[b].linesStr, b)
  {
    SisterOf(s, a, a);
    SisterOf(s, a, b);
    SisterOf(s, b, a);
  }

  /** A sequence of distinct records holds the elements of a set once each exactly when it lists that set. */
  lemma {:induction false} ListsSet(r: seq<Contingency>, S: set<Contingency>)
    requires Distinct(r) && (forall k :: 0 <= k < |r| ==> r[k] in S) && (forall x :: x in S ==> x in r)
    ensures multiset(r) == multiset(S)
    decreases |r|
  {
    if r == [] {
      assert S == {};
    } else {
      var init, x := r[..|r| - 1], r[|r| - 1];
      assert r == init + [x];
      forall y | y in S - {x} ensures y in init {
        var k :| 0 <= k < |r| && r[k] == y;
      }
      ListsSet(init, S - {x});
      assert S == (S - {x}) + {x};
    }
  }

  /**
   * What linking appends to the record with text `t`: the others under its
   * statement key when there are several, otherwise nothing; either way, its
   * sisters, each once.
   */
  lemma LinksAreSisters(s: map<String, Contingency>, idx: map<String, seq<Contingency>>, t: String)
    requires KeyedByText(s) && LineIndex(idx, s.Values) && t in s
    ensures s[t].linesStr in idx
    ensures var L := s[t].linesStr;
      multiset(if |idx[L]| > 1 then Others(idx[L], s[t]) else []) == multiset(Sisters(s, L, t))
  {
    var L, c := s[t].linesStr, s[t];
    assert c in s.Values;
    var S := Sisters(s, L, t);
    var r := Others(idx[L], c);
    forall k | 0 <= k < |r| ensures r[k] in S {
      var x := r[k];
      assert x in s.Values && x.linesStr == L;
      var u :| u in s && s[u] == x;
      assert u == x.fullStr != t;
    }
    forall x | x in S ensures x in r {
      var u :| u in s && u != t && s[u].linesStr == L && s[u] == x;
      assert x in s.Values && x.fullStr == u;
      var k :| 0 <= k < |idx[L]| && idx[L][k] == x;
    }
    ListsSet(r, S);
    if |idx[L]| <= 1 {
      assert idx[L] == [c];
    }
  }

  // ---------------------------------------------------------------------------
  // Bucket assignment (main.py:205-232) and the lookup-table add-ins (main.py:234-240)

  /** `cats_to_search`: the category patterns of the six output groups, in order. */
  const CATS: seq<seq<String>> := [
    ["P1.1"],
    ["P1.2", "P1.3", "P2.1"],
    ["P1.4"],
    ["P7.1"],
    ["P2.2", "P2.3", "P2.4", "P4.", "P5."],
    ["EE1", "EE2", "EE3"]
  ]

  /** `any(cat in nerc_cat for cat in cats)`. */
  function AnyCat(nercCat: String, cats: seq<String>): (r: bool)
    ensures r <==> exists k :: 0 <= k < |cats| && Contains(nercCat, cats[k])
  {
    if cats == [] then false
    else if Contains(nercCat, cats[0]) then true
    else
      var r := AnyCat(nercCat, cats[1..]);
      assert forall k :: 1 <= k < |cats| ==> cats[k] == cats[1..][k - 1];
      r
  }

  /** The first of the groups `CATS[g..]` with a pattern in the category, if any. */
  function BucketFrom(nercCat: String, g: nat): (r: Option<nat>)
    requires g <= |CATS|
    ensures r.Some? ==> g <= r.value < |CATS| && AnyCat(nercCat, CATS[r.value])
    ensures r.Some? ==> forall h :: g <= h < r.value ==> !AnyCat(nercCat, CATS[h])
    ensures r.None? ==> forall h :: g <= h < |CATS| ==> !AnyCat(nercCat, CATS[h])
    decreases |CATS| - g
  {
    if g == |CATS| then None
    else if AnyCat(nercCat, CATS[g]) then Some(g)
    else BucketFrom(nercCat, g + 1)
  }

  /**
   * The group of a record with category `nercCat`: the first of the six with
   * a pattern occurring in the category, or none when no pattern occurs.
   */
  function Bucket(nercCat: String): (r: Option<nat>)
    ensures r.Some? ==> r.value < |CATS| && AnyCat(nercCat, CATS[r.value])
    ensures r.Some? ==> forall h :: 0 <= h < r.value ==> !AnyCat(nercCat, CATS[h])
    ensures r.None? ==> forall h :: 0 <= h < |CATS| ==> !AnyCat(nercCat, CATS[h])
  {
    BucketFrom(nercCat, 0)
  }

  /**
   * `for cat_list, group_list in zip(...): if any(...): ...; break`: the
   * search for a record's group, scanning the groups in order.
   */
  method FindBucket(nercCat: String) returns (g: Option<nat>)
    ensures g == Bucket(nercCat)
  {
    var h := 0;
    while h < |CATS|
      invariant 0 <= h <= |CATS|
      invariant forall k :: 0 <= k < h ==> !AnyCat(nercCat, CATS[k])
    {
      if AnyCat(nercCat, CATS[h]) {
        return Some(h);
      }
      h := h + 1;
    }
    return None;
  }

  /** "P2.1" goes with "P1.2" and "P1.3", the second group, not with "P2.2". */
  lemma BucketExamples()
    ensures Bucket("P2.1") == Some(1)
  {
    assert OccursAt("P2.1", "P2.1", 0);
    assert !AnyCat("P2.1", CATS[0]);
  }

  /**
   * Six lists that hold, among the records of `seen`, exactly those of each
   * bucket, each once.
   */
  ghost predicate Grouped(gs: seq<seq<Contingency>>, seen: set<Contingency>) {
    && |gs| == |CATS|
    && (forall g, c :: 0 <= g < |gs| && c in gs[g] ==> c in seen && Bucket(c.nercCat) == Some(g))
    && (forall g, c :: 0 <= g < |gs| && c in seen && Bucket(c.nercCat) == Some(g) ==> c in gs[g])
    && (forall g :: 0 <= g < |gs| ==> Distinct(gs[g]))
  }

  /** Appending a new record to the list of its bucket, if it has one, keeps the lists grouped. */
  lemma GroupedAdd(gs: seq<seq<Contingency>>, seen: set<Contingency>, con: Contingency)
    requires Grouped(gs, seen) && con !in seen
    ensures var b := Bucket(con.nercCat);
      Grouped(if b.Some? then gs[b.value := gs[b.value] + [con]] else gs, seen + {con})
  {
    var b := Bucket(con.nercCat);
    if b.Some? {
      var gs' := gs[b.value := gs[b.value] + [con]];
      forall g, c | 0 <= g < |gs'| && c in gs'[g] ensures c in seen + {con} && Bucket(c.nercCat) == Some(g) {
        if g == b.value && c !in gs[g] {
          assert c in gs[g] + [con];
        }
      }
      forall g, c | 0 <= g < |gs'| && c in seen + {con} && Bucket(c.nercCat) == Some(g) ensures c in gs'[g] {
        if g == b.value {
          assert c in gs[g] + [con];
        }
      }
      assert Distinct(gs'[b.value]);
    }
  }

  /** The set once the records `ms[..n]`, with texts `ts[..n]`, have each been added to `s`. */
  ghost function AddedAll(s: map<String, Contingency>, ms: seq<Contingency>, ts: seq<String>, n: int): map<String, Contingency>
    requires 0 <= n <= |ms| && n <= |ts|
    decreases n
  {
    if n == 0 then s else AddKeep(AddedAll(s, ms, ts, n - 1), ts[n - 1], ms[n - 1])
  }

  /** Adding records keeps every element of the set and adds exactly the new texts. */
  lemma {:induction false} AddedAllSpec(s: map<String, Contingency>, ms: seq<Contingency>, ts: seq<String>, n: int)
    requires 0 <= n <= |ms| && n <= |ts|
    ensures AddedAll(s, ms, ts, n).Keys == s.Keys + set j | 0 <= j < n :: ts[j]
    ensures forall t :: t in s ==> AddedAll(s, ms, ts, n)[t] == s[t]
    decreases n
  {
    if n > 0 {
      AddedAllSpec(s, ms, ts, n - 1);
      assert (set j | 0 <= j < n :: ts[j]) == (set j | 0 <= j < n - 1 :: ts[j]) + {ts[n - 1]};
    }
  }

  class Filtered {
    /** `bus_filtered_con_set`, keyed by text. */
    var busFiltered: map<String, Contingency>
    /** `output_file_groups`. */
    var groups: seq<seq<Contingency>>

    constructor ()
      ensures busFiltered == map[] && groups == []
    {
      busFiltered := map[];
      groups := [];
    }

    /** The bus filter over the deduplicated, renamed set (main.py:117-120). */
    method FilterByBus(conSet: map<String, Contingency>, buses: seq<String>)
      requires KeyedByText(conSet)
      modifies this`busFiltered
      ensures busFiltered == BusFilter(conSet, buses)
      ensures KeyedByText(busFiltered)
    {
      var xs := SetToSeq(conSet.Keys);
      busFiltered := map[];
      for i := 0 to |xs|
        invariant forall t :: t in busFiltered <==> t in xs[..i] && t in conSet && Passes(conSet[t], buses)
        invariant forall t :: t in busFiltered ==> t in conSet && busFiltered[t] == conSet[t]
      {
        var x := conSet[xs[i]];
        assert xs[..i + 1] == xs[..i] + [xs[i]];
        if AnyBus(x.linesStr, buses) && !Contains(x.nercCat, "P6.") {
          busFiltered := AddKeep(busFiltered, x.fullStr, x);
        }
      }
      assert xs[..|xs|] == xs;
      BusFilterKeyed(conSet, buses);
    }

    /**
     * Merges one record `con`, whose text is `t`: when its statements are a
     * key of the index `idx`, it is appended to the `duplicates` of every
     * record under that key; otherwise it opens the key and joins the set.
     * The ghost parameters are the rest of the merge state.
     */
    method MergeOne(idx: map<String, seq<Contingency>>, con: Contingency, ghost t: String, ghost pop: set<Contingency>,
                    ghost dups: map<Contingency, seq<Contingency>>, ghost acc: map<String, Contingency>)
      returns (idx': map<String, seq<Contingency>>, ghost pop': set<Contingency>,
               ghost dups': map<Contingency, seq<Contingency>>, ghost acc': map<String, Contingency>)
      requires LineIndex(idx, pop) && con !in pop && pop <= dups.Keys && con.fullStr == t
      requires busFiltered == acc && KeyedByText(busFiltered) && forall o :: o in dups ==> o.duplicates == dups[o]
      modifies this`busFiltered, pop`duplicates
      ensures MergeState(idx', pop', dups', acc') == Step(MergeState(idx, pop, dups, acc), con, t)
      ensures LineIndex(idx', pop') && dups'.Keys == dups.Keys && pop' <= pop + {con}
      ensures busFiltered == acc' && KeyedByText(busFiltered) && forall o :: o in dups' ==> o.duplicates == dups'[o]
    {
      LineIndexAdd(idx, pop, con);
      dups' := Appended(dups, pop, con);
      var L := con.linesStr;
      if L !in idx {
        idx', pop', acc' := idx[L := [con]], pop + {con}, AddKeep(acc, t, con);
        KeyedByTextAdd(busFiltered, con.fullStr, con);
        busFiltered := AddKeep(busFiltered, con.fullStr, con);
      } else {
        idx', pop', acc' := idx, pop, acc;
        AppendToAll(idx[L], con);
      }
    }

    /**
     * The loop of the merge: merges `made[..]` one by one, in order, into the
     * state `st0` (whose index is `idx0`), and returns the final index.
     */
    method MergeLoop(idx0: map<String, seq<Contingency>>, made: seq<Contingency>, ghost ts: seq<String>,
                     ghost st0: MergeState, ghost olds: set<Contingency>)
      returns (idx: map<String, seq<Contingency>>, ghost st: MergeState)
      requires |made| <= |ts| && st0.idx == idx0 && Distinct(made)
      requires LineIndex(idx0, st0.pop) && st0.pop == olds && forall j :: 0 <= j < |made| ==> made[j] !in olds
      requires olds <= st0.dups.Keys && forall j :: 0 <= j < |made| ==> made[j] in st0.dups
      requires busFiltered == st0.acc && KeyedByText(busFiltered) && forall o :: o in st0.dups ==> o.duplicates == st0.dups[o]
      requires forall k :: 0 <= k < |made| ==> made[k].fullStr == ts[k]
      modifies this`busFiltered, olds`duplicates, (set c | c in made)`duplicates
      ensures st == Folded(st0, made, ts, |made|) && idx == st.idx
      ensures busFiltered == st.acc && KeyedByText(busFiltered) && forall o :: o in st.dups ==> o.duplicates == st.dups[o]
    {
      idx, st := idx0, st0;
      var i := 0;
      while i < |made|
        invariant 0 <= i <= |made| && st == Folded(st0, made, ts, i) && idx == st.idx
        invariant busFiltered == st.acc && KeyedByText(busFiltered) && forall o :: o in st.dups ==> o.duplicates == st.dups[o]
        invariant forall k :: 0 <= k < |made| ==> made[k].fullStr == ts[k]
        invariant LineIndex(idx, st.pop) && st.dups.Keys == st0.dups.Keys
        invariant forall o :: o in st.pop ==> o in olds || o in made[..i]
      {
        ghost var pop, dups, acc;
        idx, pop, dups, acc := MergeOne(idx, made[i], ts[i], st.pop, st.dups, st.acc);
        st := MergeState(idx, pop, dups, acc);
        i := i + 1;
      }
    }

    /**
     * Merges the records `made` one by one, in order, keeping the line index
     * `idx0` of the set: a record whose statements are a key joins the
     * `duplicates` of every record under it; any other opens its key and
     * joins the set.
     */
    method MergeRecords(idx0: map<String, seq<Contingency>>, made: seq<Contingency>, ghost ts: seq<String>,
                        ghost olds: set<Contingency>, ghost keys0: set<String>, ghost d0: map<Contingency, seq<Contingency>>)
      requires Distinct(made) && |made| <= |ts| && forall j :: 0 <= j < |made| ==> made[j] !in olds
      requires LineIndex(idx0, olds) && idx0.Keys == keys0 && d0.Keys == olds
      requires KeyedByText(busFiltered)
      requires forall o :: o in olds ==> o.duplicates == d0[o]
      requires forall j :: 0 <= j < |made| ==> made[j].duplicates == [] && made[j].fullStr == ts[j]
      modifies this`busFiltered, olds`duplicates, (set c | c in made)`duplicates
      ensures busFiltered == Merged(old(busFiltered), keys0, made, ts, |made|) && KeyedByText(busFiltered)
      ensures forall o :: o in olds ==> o.duplicates == d0[o] + Echoes(made, 0, |made|, o.linesStr)
      ensures forall j :: 0 <= j < |made| ==>
        made[j].duplicates == if NewKey(keys0, made, j) then Echoes(made, j + 1, |made|, made[j].linesStr) else []
    {
      ghost var s0 := busFiltered;
      ghost var st0 := MergeState(idx0, olds, d0 + map c | c in made :: [], s0);
      var idx, st := MergeLoop(idx0, made, ts, st0, olds);
      FoldedAcc(st0, keys0, made, ts, |made|);
      FoldedPop(st0, olds, keys0, made, ts, |made|);
      FoldedOlds(st0, d0, made, ts, |made|);
      FoldedMade(st0, olds, keys0, made, ts, |made|);
    }

    /**
     * The post-filter merge: each record read from `texts` whose statements
     * are not yet a key of the set joins it; any other is appended to the
     * `duplicates` of every record with its statements. Records made before
     * a malformed text are merged, then its `ValueError` is returned.
     */
    method MergePostFilter(texts: seq<String>, source: Option<String>) returns (r: Result<()>, made: seq<Contingency>)
      requires KeyedByText(busFiltered)
      modifies this`busFiltered, busFiltered.Values`duplicates
      ensures |made| <= |texts| && (r.Ok? <==> |made| == |texts|)
      ensures r.Err? ==> !IsRecord(texts[|made|]) && r.error == ValueError
      ensures forall k :: 0 <= k < |made| ==> fresh(made[k]) && made[k].fullStr == texts[k]
      ensures Distinct(made)
      ensures busFiltered == Merged(old(busFiltered), LinesOf(old(busFiltered.Values)), made, texts, |made|)
      ensures KeyedByText(busFiltered)
      ensures forall o :: o in old(busFiltered.Values) ==> o.duplicates == old(o.duplicates) + Echoes(made, 0, |made|, o.linesStr)
      ensures forall j :: 0 <= j < |made| ==>
        made[j].duplicates == (if NewKey(LinesOf(old(busFiltered.Values)), made, j) then Echoes(made, j + 1, |made|, made[j].linesStr) else [])
    {
      ghost var olds := busFiltered.Values;
      ghost var d0 := map o | o in olds :: o.duplicates;
      var idx := BuildLineIndex(busFiltered.Values);
      LineIndexKeys(idx, olds);
      r, made := ReadAll(texts, source);
      assert forall j :: 0 <= j < |made| ==> made[j] !in olds;
      MergeRecords(idx, made, texts, olds, LinesOf(olds), d0);
    }

    /**
     * `con.duplicates += [c for c in ls if c != con]` for each record `con` of
     * the sister group `ls`, in order.
     */
    method LinkGroup(ls: seq<Contingency>)
      requires Distinct(ls)
      modifies (set c | c in ls)`duplicates
      ensures forall c :: c in ls ==> c.duplicates == old(c.duplicates) + Others(ls, c)
    {
      for k := 0 to |ls|
        invariant forall j :: 0 <= j < k ==> ls[j].duplicates == old(ls[j].duplicates) + Others(ls, ls[j])
        invariant forall j :: k <= j < |ls| ==> ls[j].duplicates == old(ls[j].duplicates)
      {
        var con := ls[k];
        var others := Others(ls, con);
        con.duplicates := con.duplicates + others;
      }
    }

    /**
     * `for k, ls in dup_lines_dict.items(): ...`: links each group of
     * `groups`, whose key is the statements its records share, in an order
     * left open.
     */
    method LinkAll(groups: map<String, seq<Contingency>>, ghost objs: set<Contingency>)
      requires forall L :: L in groups ==> Distinct(groups[L])
      requires forall L, c :: L in groups && c in groups[L] ==> c in objs && c.linesStr == L
      requires forall c :: c in objs && c.linesStr in groups ==> c in groups[c.linesStr]
      modifies objs`duplicates
      ensures forall c :: c in objs ==>
        c.duplicates == old(c.duplicates) + if c.linesStr in groups then Others(groups[c.linesStr], c) else []
    {
      var keys := SetToSeq(groups.Keys);
      ghost var done: set<String> := {};
      for i := 0 to |keys|
        invariant done <= groups.Keys
        invariant forall j :: 0 <= j < i ==> keys[j] in done
        invariant forall j :: i <= j < |keys| ==> keys[j] !in done
        invariant forall c :: c in objs ==>
          c.duplicates == old(c.duplicates) + if c.linesStr in done then Others(groups[c.linesStr], c) else []
      {
        var L := keys[i];
        label before:
        LinkGroup(groups[L]);
        forall c | c in objs
          ensures c.duplicates == old@before(c.duplicates) + if c.linesStr == L then Others(groups[L], c) else []
        {
          if c.linesStr == L {
            assert c in groups[L];
          } else {
            assert c !in groups[L];
          }
        }
        done := done + {L};
      }
      assert done == groups.Keys;
    }

    /**
     * The linking of sister records (main.py:178-181, 198-203): the records
     * under each statement key shared by several each gain the others, in an
     * order left open; `links[t]` is what the record with text `t` gains,
     * which is its sisters, each once.
     */
    method LinkDuplicates() returns (ghost links: map<String, seq<Contingency>>)
      requires KeyedByText(busFiltered)
      modifies busFiltered.Values`duplicates
      ensures forall t :: t in busFiltered ==>
        t in links && busFiltered[t].duplicates == old(busFiltered[t].duplicates) + links[t]
      ensures forall t :: t in busFiltered ==>
        multiset(links[t]) == multiset(Sisters(busFiltered, busFiltered[t].linesStr, t))
    {
      ghost var s := busFiltered;
      var idx := BuildLineIndex(busFiltered.Values);
      var dupIdx := map L | L in idx && |idx[L]| > 1 :: idx[L];
      ghost var objs := busFiltered.Values;
      LinkAll(dupIdx, objs);
      links := map t | t in s :: if s[t].linesStr in dupIdx then Others(dupIdx[s[t].linesStr], s[t]) else [];
      forall t | t in s
        ensures s[t].duplicates == old(s[t].duplicates) + links[t]
        ensures multiset(links[t]) == multiset(Sisters(s, s[t].linesStr, t))
      {
        assert s[t] in objs;
        LinksAreSisters(s, idx, t);
      }
    }

    /**
     * The bucket assignment (main.py:205-232): `groups` becomes six lists,
     * and each record of the set is in the list of its bucket, once, and in
     * no other; a record without a bucket is in none.
     */
    method AssignGroups()
      modifies this`groups
      ensures |groups| == |CATS|
      ensures forall g, c :: 0 <= g < |groups| ==> (c in groups[g] <==> c in busFiltered.Values && Bucket(c.nercCat) == Some(g))
      ensures forall g :: 0 <= g < |groups| ==> Distinct(groups[g])
    {
      var xs := SetToSeq(busFiltered.Values);
      groups := [[], [], [], [], [], []];
      ghost var seen: set<Contingency> := {};
      for i := 0 to |xs|
        invariant Grouped(groups, seen) && seen <= busFiltered.Values
        invariant forall j :: 0 <= j < i ==> xs[j] in seen
        invariant forall j :: i <= j < |xs| ==> xs[j] !in seen
      {
        var con := xs[i];
        var b := FindBucket(con.nercCat);
        GroupedAdd(groups, seen, con);
        if b.Some? {
          groups := groups[b.value := groups[b.value] + [con]];
        }
        seen := seen + {con};
      }
      assert seen == busFiltered.Values;
    }

    /**
     * The lookup-table add-ins (main.py:234-240): the records read from the
     * texts join the set after the grouping, so no group holds them.
     */
    method AddIns(texts: seq<String>, source: Option<String>) returns (r: Result<()>, made: seq<Contingency>)
      requires KeyedByText(busFiltered)
      modifies this`busFiltered
      ensures |made| <= |texts| && (r.Ok? <==> |made| == |texts|)
      ensures r.Err? ==> !IsRecord(texts[|made|]) && r.error == ValueError
      ensures forall k :: 0 <= k < |made| ==> fresh(made[k]) && made[k].fullStr == texts[k]
      ensures busFiltered == AddedAll(old(busFiltered), made, texts, |made|) && KeyedByText(busFiltered)
      ensures groups == old(groups)
      ensures forall g, k :: 0 <= g < |groups| && 0 <= k < |made| ==> made[k] !in groups[g]
    {
      r, made := ReadAll(texts, source);
      ghost var s0 := busFiltered;
      for i := 0 to |made|
        invariant busFiltered == AddedAll(s0, made, texts, i) && KeyedByText(busFiltered)
        invariant forall k :: 0 <= k < |made| ==> made[k].fullStr == texts[k]
      {
        KeyedByTextAdd(busFiltered, made[i].fullStr, made[i]);
        busFiltered := AddKeep(busFiltered, made[i].fullStr, made[i]);
      }
    }
  }
}
