// The reading and renaming stages of main.py: the script's `con_dict`,
// `con_set` and `double_dict` are the fields of one `Run`, and each stage is a
// method that updates them in the order the script does.
module Script {
  import opened Wrappers
  import opened Text
  import opened Header
  import opened Contingencies
  import opened Sorting

  /**
   * `s.add(o)` on a set keyed by text, `t` being the text of `o`: an element
   * with the same text stays.
   */
  function AddKeep(s: map<String, Contingency>, t: String, o: Contingency): (r: map<String, Contingency>)
    ensures r.Keys == s.Keys + {t}
    ensures forall u :: u in s ==> r[u] == s[u]
    ensures t !in s ==> r[t] == o
  {
    if t in s then s else s[t := o]
  }

  /**
   * `double_dict` flattened: `(x, t)` maps to the record with text `t` in the
   * set `double_dict[x]`.
   */
  type Doubles = map<(String, String), Contingency>

  /** The set `double_dict[x]`, keyed by text (empty when `x` is absent). */
  function Members(d: Doubles, x: String): (r: map<String, Contingency>)
    ensures forall t :: t in r <==> (x, t) in d
    ensures forall t :: t in r ==> r[t] == d[(x, t)]
  {
    map p | p in d && p.0 == x :: p.1 := d[p]
  }

  /** `double_dict[x].add(o)`, `t` being the text of `o`: an element with the same text stays. */
  function AddDouble(d: Doubles, x: String, t: String, o: Contingency): (r: Doubles)
    ensures r.Keys == d.Keys + {(x, t)}
    ensures forall p :: p in d ==> r[p] == d[p]
    ensures (x, t) !in d ==> r[(x, t)] == o
  {
    if (x, t) in d then d else d[(x, t) := o]
  }

  function IdsOf(d: Doubles): set<String> {
    set p | p in d :: p.0
  }

  /** The four indexes of the reading loop as values: `con_set`, `con_dict`, `double_dict` and its key order. */
  datatype Indexes = Indexes(conSet: map<String, Contingency>, conDict: map<String, Contingency>,
                             doubleDict: Doubles, doubleKeys: seq<String>)

  /** The indexes before the first file is read. */
  function NoIndexes(): Indexes {
    Indexes(map[], map[], map[], [])
  }

  /**
   * One turn of the reading loop (main.py:82-86) on the indexes `ix` for the
   * record `c` with text `t` and id `x`, `u` being the text of the record the
   * id index holds for `x`: a new text under an id already indexed files `c`
   * and that holder under the id; the set keeps the record already under the
   * text; the id index points to `c`.
   */
  function FileStep(ix: Indexes, t: String, x: String, c: Contingency, u: String): (r: Indexes)
    ensures r.conSet.Keys == ix.conSet.Keys + {t}
    ensures x in r.conDict && r.conDict[x] == c
  {
    var collide := t !in ix.conSet && x in ix.conDict;
    Indexes(AddKeep(ix.conSet, t, c), ix.conDict[x := c],
            if collide then AddDouble(AddDouble(ix.doubleDict, x, t, c), x, u, ix.conDict[x]) else ix.doubleDict,
            if collide && x !in ix.doubleKeys then ix.doubleKeys + [x] else ix.doubleKeys)
  }

  /** The indexes, and the text of the record the id index holds for each id. */
  datatype Filing = Filing(ix: Indexes, held: map<String, String>)

  /** `FileStep`, keeping track of the texts the id index holds. */
  function FileNext(f: Filing, t: String, x: String, c: Contingency): Filing {
    Filing(FileStep(f.ix, t, x, c, if x in f.held then f.held[x] else ""), f.held[x := t])
  }

  /** Filing the records `made`, with texts `ts` and ids `xs`, in order, starting from `f`. */
  function Filed(f: Filing, ts: seq<String>, xs: seq<String>, made: seq<Contingency>): Filing
    requires |ts| == |xs| == |made|
    decreases |made|
  {
    if made == [] then f
    else
      var n := |made| - 1;
      FileNext(Filed(f, ts[..n], xs[..n], made[..n]), ts[n], xs[n], made[n])
  }

  /** The ids of the records `made`, in order. */
  ghost function Ids(made: seq<Contingency>): (r: seq<String>)
    reads set c | c in made
    ensures |r| == |made| && forall k :: 0 <= k < |made| ==> r[k] == made[k].id
  {
    if made == [] then [] else [made[0].id] + Ids(made[1..])
  }

  /** The text of each record in an id index. */
  ghost function Held(d: map<String, Contingency>): map<String, String>
    reads d.Values
  {
    map x | x in d :: d[x].fullStr
  }

  /** Filing one more record is one more `FileNext`. */
  lemma FiledSnoc(f: Filing, ts: seq<String>, xs: seq<String>, made: seq<Contingency>, i: nat)
    requires |ts| == |xs| == |made| && i < |made|
    ensures Filed(f, ts[..i + 1], xs[..i + 1], made[..i + 1]) == FileNext(Filed(f, ts[..i], xs[..i], made[..i]), ts[i], xs[i], made[i])
  {
    assert ts[..i + 1][..i] == ts[..i] && xs[..i + 1][..i] == xs[..i] && made[..i + 1][..i] == made[..i];
  }

  /**
   * Filing records keeps the set's old entries, adds exactly their texts and
   * files under a new text the first record read with it; the id index gains
   * exactly their ids, each pointing to the last record read with it.
   */
  lemma {:induction false} FiledFacts(f: Filing, ts: seq<String>, xs: seq<String>, made: seq<Contingency>)
    requires |ts| == |xs| == |made|
    ensures var r := Filed(f, ts, xs, made).ix;
      && r.conSet.Keys == f.ix.conSet.Keys + Elems(ts)
      && (forall t :: t in f.ix.conSet ==> r.conSet[t] == f.ix.conSet[t])
      && (forall k :: 0 <= k < |made| && ts[k] !in f.ix.conSet && FirstWithText(ts, k) ==> r.conSet[ts[k]] == made[k])
      && (forall x :: x in r.conDict <==> x in f.ix.conDict || x in xs)
      && (forall k :: 0 <= k < |made| && LastWithId(xs, k) ==> xs[k] in r.conDict && r.conDict[xs[k]] == made[k])
    decreases |made|
  {
    if made != [] {
      var n := |made| - 1;
      FiledFacts(f, ts[..n], xs[..n], made[..n]);
      var p := Filed(f, ts[..n], xs[..n], made[..n]);
      var r := Filed(f, ts, xs, made).ix;
      assert r == FileNext(p, ts[n], xs[n], made[n]).ix;
      SetNext(f.ix.conSet, p, ts, xs, made);
      TakeSnoc(xs, n);
      assert xs[..n + 1] == xs;
      LastStep(xs, made, n, p.ix.conDict, r.conDict);
    }
  }

  /** One more record keeps the text-set facts of `FiledFacts`. */
  lemma SetNext(s0: map<String, Contingency>, p: Filing, ts: seq<String>, xs: seq<String>, made: seq<Contingency>)
    requires |ts| == |xs| == |made| > 0
    requires var n := |made| - 1;
      && p.ix.conSet.Keys == s0.Keys + Elems(ts[..n])
      && (forall t :: t in s0 ==> p.ix.conSet[t] == s0[t])
      && (forall k :: 0 <= k < n && ts[..n][k] !in s0 && FirstWithText(ts[..n], k) ==> p.ix.conSet[ts[..n][k]] == made[..n][k])
    ensures var r := FileNext(p, ts[|made| - 1], xs[|made| - 1], made[|made| - 1]).ix;
      && r.conSet.Keys == s0.Keys + Elems(ts)
      && (forall t :: t in s0 ==> r.conSet[t] == s0[t])
      && (forall k :: 0 <= k < |made| && ts[k] !in s0 && FirstWithText(ts, k) ==> r.conSet[ts[k]] == made[k])
  {
    var n := |made| - 1;
    var r := FileNext(p, ts[n], xs[n], made[n]).ix;
    assert r.conSet == AddKeep(p.ix.conSet, ts[n], made[n]);
    assert Elems(ts) == Elems(ts[..n]) + {ts[n]} by {
      TakeSnoc(ts, n);
      assert ts[..n + 1] == ts;
    }
    forall k | 0 <= k < |made| && ts[k] !in s0 && FirstWithText(ts, k) ensures r.conSet[ts[k]] == made[k] {
      if k < n {
        assert ts[..n][k] == ts[k] && made[..n][k] == made[k];
        assert FirstWithText(ts[..n], k);
      } else {
        assert ts[n] !in Elems(ts[..n]);
      }
    }
  }

  /** The texts read with the id `x`. */
  function TextsWith(ts: seq<String>, xs: seq<String>, x: String): set<String>
    requires |ts| == |xs|
  {
    set k | 0 <= k < |ts| && xs[k] == x :: ts[k]
  }

  /** Records with the same text have the same id, as when each id is read from its text. */
  predicate TextsFixIds(ts: seq<String>, xs: seq<String>)
    requires |ts| == |xs|
  {
    forall j, k :: 0 <= j < |ts| && 0 <= k < |ts| && ts[j] == ts[k] ==> xs[j] == xs[k]
  }

  lemma TextsWithSnoc(ts: seq<String>, xs: seq<String>, n: nat, y: String)
    requires |ts| == |xs| && n < |ts|
    ensures TextsWith(ts[..n + 1], xs[..n + 1], y) == TextsWith(ts[..n], xs[..n], y) + (if y == xs[n] then {ts[n]} else {})
  {
    var a, b := TextsWith(ts[..n + 1], xs[..n + 1], y), TextsWith(ts[..n], xs[..n], y);
    forall u | u in a ensures u in b + (if y == xs[n] then {ts[n]} else {}) {
      var k :| 0 <= k < n + 1 && xs[..n + 1][k] == y && ts[..n + 1][k] == u;
      if k < n {
        assert xs[..n][k] == y && ts[..n][k] == u;
      }
    }
    forall u | u in b ensures u in a {
      var k :| 0 <= k < n && xs[..n][k] == y && ts[..n][k] == u;
      assert xs[..n + 1][k] == y && ts[..n + 1][k] == u;
    }
    if y == xs[n] {
      assert xs[..n + 1][n] == y && ts[..n + 1][n] == ts[n];
    }
  }

  lemma FixIdsPrefix(ts: seq<String>, xs: seq<String>, n: nat)
    requires |ts| == |xs| && n <= |ts| && TextsFixIds(ts, xs)
    ensures TextsFixIds(ts[..n], xs[..n])
  {
    forall j, k | 0 <= j < n && 0 <= k < n && ts[..n][j] == ts[..n][k] ensures xs[..n][j] == xs[..n][k] {
      assert ts[j] == ts[k];
    }
  }

  /** The id index holds exactly the ids read, and `held` the text of a record read under each. */
  ghost predicate HeldExact(f: Filing, ts: seq<String>, xs: seq<String>)
    requires |ts| == |xs|
  {
    && (forall x :: x in f.ix.conDict <==> TextsWith(ts, xs, x) != {})
    && (forall x :: x in f.held <==> x in f.ix.conDict)
    && (forall x :: x in f.held ==> f.held[x] in TextsWith(ts, xs, x))
  }

  /** `(x, t)` is in the collision index exactly when `t` was read with `x` and another text was too. */
  ghost predicate DoublesExact(dd: Doubles, ts: seq<String>, xs: seq<String>)
    requires |ts| == |xs|
  {
    forall x, t :: (x, t) in dd <==> t in TextsWith(ts, xs, x) && TextsWith(ts, xs, x) != {t}
  }

  /** Filing one record keeps the id index and `held` exact at the id `y`. */
  lemma HeldAt(d: map<String, Contingency>, held: map<String, String>, t: String, x: String, c: Contingency,
               y: String, w0: set<String>, w1: set<String>)
    requires w1 == w0 + (if y == x then {t} else {})
    requires (y in d <==> w0 != {}) && (y in held <==> y in d) && (y in held ==> held[y] in w0)
    ensures y in d[x := c] <==> w1 != {}
    ensures y in held[x := t] <==> y in d[x := c]
    ensures y in held[x := t] ==> held[x := t][y] in w1
  {
  }

  /**
   * Filing one record keeps the collision index exact at the id `y`: `w0`
   * and `w1` are the texts read with `y` before and after, `h` the text
   * the id index held for `x` and `o` its record.
   */
  lemma DoublesAt(dd: Doubles, t: String, x: String, c: Contingency, h: String, o: Contingency, collide: bool,
                  y: String, w0: set<String>, w1: set<String>)
    requires w1 == w0 + (if y == x then {t} else {})
    requires forall u :: (y, u) in dd <==> u in w0 && w0 != {u}
    requires collide && y == x ==> t !in w0 && h in w0
    requires !collide && y == x ==> t in w0 || w0 == {}
    ensures forall u :: (y, u) in (if collide then AddDouble(AddDouble(dd, x, t, c), x, h, o) else dd) <==> u in w1 && w1 != {u}
  {
    if collide && y == x {
      forall u ensures (y, u) in AddDouble(AddDouble(dd, x, t, c), x, h, o) <==> u in w1 {
        if w0 == {u} {
          assert u == h;
        }
      }
    }
  }

  /** One more record keeps the set's keys and `HeldExact`. */
  lemma HeldNext(p: Filing, ts: seq<String>, xs: seq<String>, made: seq<Contingency>, n: nat)
    requires |ts| == |xs| == |made| && n < |made|
    requires p.ix.conSet.Keys == Elems(ts[..n]) && HeldExact(p, ts[..n], xs[..n])
    ensures FileNext(p, ts[n], xs[n], made[n]).ix.conSet.Keys == Elems(ts[..n + 1])
    ensures HeldExact(FileNext(p, ts[n], xs[n], made[n]), ts[..n + 1], xs[..n + 1])
  {
    TakeSnoc(ts, n);
    var q := FileNext(p, ts[n], xs[n], made[n]);
    assert q.ix.conDict == p.ix.conDict[xs[n] := made[n]] && q.held == p.held[xs[n] := ts[n]];
    forall y ensures (y in q.ix.conDict <==> TextsWith(ts[..n + 1], xs[..n + 1], y) != {})
                  && (y in q.held <==> y in q.ix.conDict)
                  && (y in q.held ==> q.held[y] in TextsWith(ts[..n + 1], xs[..n + 1], y)) {
      TextsWithSnoc(ts, xs, n, y);
      HeldAt(p.ix.conDict, p.held, ts[n], xs[n], made[n], y, TextsWith(ts[..n], xs[..n], y), TextsWith(ts[..n + 1], xs[..n + 1], y));
    }
  }

  /** One more record keeps `DoublesExact` when every text is read under one id. */
  lemma DoublesNext(p: Filing, ts: seq<String>, xs: seq<String>, made: seq<Contingency>, n: nat)
    requires |ts| == |xs| == |made| && n < |made| && TextsFixIds(ts, xs)
    requires p.ix.conSet.Keys == Elems(ts[..n]) && HeldExact(p, ts[..n], xs[..n])
    requires DoublesExact(p.ix.doubleDict, ts[..n], xs[..n])
    ensures DoublesExact(FileNext(p, ts[n], xs[n], made[n]).ix.doubleDict, ts[..n + 1], xs[..n + 1])
  {
    var t, x := ts[n], xs[n];
    var collide := t !in p.ix.conSet && x in p.ix.conDict;
    var h := if x in p.held then p.held[x] else "";
    var o := if x in p.ix.conDict then p.ix.conDict[x] else made[n];
    var dd := FileNext(p, t, x, made[n]).ix.doubleDict;
    assert dd == if collide then AddDouble(AddDouble(p.ix.doubleDict, x, t, made[n]), x, h, o) else p.ix.doubleDict;
    if !collide && t in p.ix.conSet {
      var j :| 0 <= j < n && ts[..n][j] == t;
      assert ts[j] == ts[n];
      assert xs[..n][j] == x && ts[..n][j] == t;
    }
    forall y, u ensures (y, u) in dd <==> u in TextsWith(ts[..n + 1], xs[..n + 1], y) && TextsWith(ts[..n + 1], xs[..n + 1], y) != {u} {
      TextsWithSnoc(ts, xs, n, y);
      DoublesAt(p.ix.doubleDict, t, x, made[n], h, o, collide, y, TextsWith(ts[..n], xs[..n], y), TextsWith(ts[..n + 1], xs[..n + 1], y));
    }
  }

  /**
   * Reading from empty indexes (main.py:60-62, 78-86) when every text is read
   * under one id: the set holds the texts read, the id index the ids read,
   * and the collision index files `(x, t)` exactly when `t` was read with the
   * id `x` and some other text was too.
   */
  lemma {:induction false} FiledFromEmpty(ts: seq<String>, xs: seq<String>, made: seq<Contingency>)
    requires |ts| == |xs| == |made| && TextsFixIds(ts, xs)
    ensures Filed(Filing(NoIndexes(), map[]), ts, xs, made).ix.conSet.Keys == Elems(ts)
    ensures HeldExact(Filed(Filing(NoIndexes(), map[]), ts, xs, made), ts, xs)
    ensures DoublesExact(Filed(Filing(NoIndexes(), map[]), ts, xs, made).ix.doubleDict, ts, xs)
    decreases |made|
  {
    if made != [] {
      var n := |made| - 1;
      FixIdsPrefix(ts, xs, n);
      FiledFromEmpty(ts[..n], xs[..n], made[..n]);
      FiledSnoc(Filing(NoIndexes(), map[]), ts, xs, made, n);
      var p := Filed(Filing(NoIndexes(), map[]), ts[..n], xs[..n], made[..n]);
      HeldNext(p, ts, xs, made, n);
      DoublesNext(p, ts, xs, made, n);
      assert ts[..n + 1] == ts && xs[..n + 1] == xs && made[..n + 1] == made;
    }
  }

  /** Each element of a set of records sits under its own text. */
  ghost predicate KeyedByText(s: map<String, Contingency>)
    reads s.Values
  {
    forall t :: t in s ==> s[t].fullStr == t
  }

  /** Each id maps to a record with that id whose text is in the set. */
  ghost predicate IdIndex(d: map<String, Contingency>, s: map<String, Contingency>)
    reads d.Values
  {
    forall x :: x in d ==> d[x].id == x && d[x].fullStr in s
  }

  /** Each collision set holds records with its id, keyed by their texts. */
  ghost predicate Collisions(d: Doubles)
    reads d.Values
  {
    forall p :: p in d ==> d[p].fullStr == p.1 && d[p].id == p.0
  }

  /** `order` lists the keys `ks` once each. */
  ghost predicate KeyOrder(order: seq<String>, ks: set<String>) {
    (forall i, j :: 0 <= i < j < |order| ==> order[i] != order[j])
    && (forall x :: x in ks <==> x in order)
  }

  class Run {
    /** `con_dict`: id to the record most recently read with that id. */
    var conDict: map<String, Contingency>
    /** `con_set`: the records read, one per text. */
    var conSet: map<String, Contingency>
    /** `double_dict`: id to the distinct texts read under it, once it has two. */
    var doubleDict: Doubles
    /** The keys of `double_dict` in insertion order, the order a `dict` iterates in. */
    var doubleKeys: seq<String>

    /** Every object the collision index refers to. */
    function DoubleObjects(): set<Contingency>
      reads this
    {
      doubleDict.Values
    }

    /** The four indexes as a value. */
    function Current(): Indexes
      reads this
    {
      Indexes(conSet, conDict, doubleDict, doubleKeys)
    }

    function Objects(): set<Contingency>
      reads this
    {
      conSet.Values + conDict.Values + DoubleObjects()
    }

    /**
     * What holds of the indexes after every step of the reading loop: sets are
     * keyed by their element's text, every text is a record whose header names
     * the id it is filed under, and the collision index refers to texts read.
     */
    ghost predicate Indexed()
      reads this, Objects()
    {
      IndexState(conSet, conDict, doubleDict, doubleKeys)
    }

    constructor ()
      ensures conDict == map[] && conSet == map[] && doubleDict == map[] && doubleKeys == []
      ensures Indexed()
    {
      conDict := map[];
      conSet := map[];
      doubleDict := map[];
      doubleKeys := [];
    }

    /**
     * One record of the reading loop (main.py:82-86): a new text under an id
     * already indexed files both the record and the id's current holder under
     * that id; the set keeps one record per text; the id index keeps the last.
     */
    method Ingest(c: Contingency)
      requires Indexed()
      modifies this`conDict, this`conSet, this`doubleDict, this`doubleKeys
      ensures Indexed()
      ensures c.fullStr in old(conSet) ==> conSet == old(conSet)
      ensures c.fullStr !in old(conSet) ==> conSet == old(conSet)[c.fullStr := c]
      ensures conDict == old(conDict)[c.id := c]
      ensures c.fullStr !in old(conSet) && c.id in old(conDict) ==>
        && doubleDict == AddDouble(AddDouble(old(doubleDict), c.id, c.fullStr, c), c.id, old(conDict)[c.id].fullStr, old(conDict)[c.id])
        && c.fullStr in Members(doubleDict, c.id) && old(conDict)[c.id].fullStr in Members(doubleDict, c.id)
        && doubleKeys == if c.id in old(doubleKeys) then old(doubleKeys) else old(doubleKeys) + [c.id]
      ensures !(c.fullStr !in old(conSet) && c.id in old(conDict)) ==>
        doubleDict == old(doubleDict) && doubleKeys == old(doubleKeys)
      ensures Current() == FileStep(old(Current()), c.fullStr, c.id, c, if c.id in old(conDict) then old(conDict[c.id].fullStr) else "")
    {
      ghost var s, d, dd, order := conSet, conDict, doubleDict, doubleKeys;
      var t, x := c.fullStr, c.id;
      var collide := t !in conSet && x in conDict;
      doubleKeys := if collide && x !in doubleKeys then doubleKeys + [x] else doubleKeys;
      doubleDict := if collide then AddDouble(AddDouble(doubleDict, x, t, c), x, conDict[x].fullStr, conDict[x]) else doubleDict;
      conSet := AddKeep(conSet, t, c);
      conDict := conDict[x := c];
      assert Indexed() by {
        IngestStep(s, d, dd, order, c);
      }
    }

    /**
     * The loop over the matches of one file (main.py:78-86): each text becomes
     * a record and is filed. The first text the header grammar refuses stops
     * the run with `ValueError`, after the texts before it have been filed.
     * `made` are the records created, in order. Creating a record touches no
     * index, so the texts are read first and the records filed after: the
     * indexes end as in the interleaved loop.
     */
    method Load(texts: seq<String>, source: Option<String>) returns (r: Result<()>, made: seq<Contingency>, ghost ids: seq<String>)
      requires Indexed()
      modifies this`conDict, this`conSet, this`doubleDict, this`doubleKeys
      ensures Indexed()
      ensures |made| <= |texts|
      ensures r.Ok? ==> |made| == |texts|
      ensures r.Err? ==> |made| < |texts| && !IsRecord(texts[|made|]) && r.error == ValueError
      ensures forall k :: 0 <= k < |made| ==> made[k].fullStr == texts[k] && made[k].duplicates == []
      ensures conSet.Keys == old(conSet).Keys + set t | t in texts[..|made|]
      ensures forall t :: t in old(conSet) ==> conSet[t] == old(conSet)[t]
      ensures forall k :: 0 <= k < |made| && texts[k] !in old(conSet) && FirstWithText(texts, k) ==> conSet[texts[k]] == made[k]
      ensures |ids| == |made| && forall k :: 0 <= k < |made| ==> made[k].id == ids[k]
      ensures Current() == Filed(Filing(old(Current()), old(Held(conDict))), texts[..|made|], ids, made).ix
    {
      r, made := ReadAll(texts, source);
      ids := Ids(made);
      FileAll(made, texts[..|made|], ids);
    }

    /**
     * The filing half of the reading loop (main.py:82-86) over records whose
     * texts are `texts`: the set gains exactly those texts and keeps what it
     * had, and each id ends up filed under the last record read with it.
     */
    method FileAll(made: seq<Contingency>, ghost texts: seq<String>, ghost ids: seq<String>)
      requires Indexed()
      requires |texts| == |made| && forall k :: 0 <= k < |made| ==> made[k].fullStr == texts[k]
      requires |ids| == |made| && forall k :: 0 <= k < |made| ==> made[k].id == ids[k]
      modifies this`conDict, this`conSet, this`doubleDict, this`doubleKeys
      ensures Indexed()
      ensures conSet.Keys == old(conSet).Keys + Elems(texts)
      ensures forall t :: t in old(conSet) ==> conSet[t] == old(conSet)[t]
      ensures forall k :: 0 <= k < |made| && texts[k] !in old(conSet) && FirstWithText(texts, k) ==> conSet[texts[k]] == made[k]
      ensures forall x :: x in conDict <==> x in old(conDict) || x in ids
      ensures forall k :: 0 <= k < |made| && LastWithId(ids, k) ==> ids[k] in conDict && conDict[ids[k]] == made[k]
      ensures Current() == Filed(Filing(old(Current()), old(Held(conDict))), texts, ids, made).ix
    {
      ghost var f0 := Filing(Current(), Held(conDict));
      ghost var f := f0;
      var i := 0;
      while i < |made|
        invariant 0 <= i <= |made|
        invariant f == Filed(f0, texts[..i], ids[..i], made[..i])
        invariant Indexed() && Current() == f.ix
        invariant forall x :: x in conDict <==> x in f.held
        invariant forall x :: x in conDict ==> f.held[x] == conDict[x].fullStr
      {
        FiledSnoc(f0, texts, ids, made, i);
        FileOne(made[i], f, texts[i], ids[i]);
        f := FileNext(f, texts[i], ids[i], made[i]);
        i := i + 1;
      }
      assert texts[..i] == texts;
      assert ids[..i] == ids;
      assert made[..i] == made;
      FiledFacts(f0, texts, ids, made);
    }

    /**
     * One turn of the filing loop: filing `c`, with text `t` and id `x`, is
     * one `FileNext` on the indexes `f`, whose `held` gives the text of each
     * record in the id index.
     */
    method FileOne(c: Contingency, ghost f: Filing, ghost t: String, ghost x: String)
      requires Indexed() && c.fullStr == t && c.id == x
      requires Current() == f.ix
      requires forall y :: y in conDict <==> y in f.held
      requires forall y :: y in conDict ==> f.held[y] == conDict[y].fullStr
      modifies this`conDict, this`conSet, this`doubleDict, this`doubleKeys
      ensures Indexed()
      ensures Current() == FileNext(f, t, x, c).ix
      ensures forall y :: y in conDict <==> y in FileNext(f, t, x, c).held
      ensures forall y :: y in conDict ==> FileNext(f, t, x, c).held[y] == conDict[y].fullStr
    {
      Ingest(c);
    }

    /**
     * The rename loop (main.py:108-114): every group of the collision index,
     * in insertion order, is sorted by `(lines_str, full_str)`, and its `i`-th
     * record is taken out of the set under its text, renamed to `id_i` and put
     * back under its new text. `con_set.remove` raises `KeyError` when the text
     * is missing and `change_id` raises `AttributeError` (see `ChangeId`). On
     * success `orders` gives each group's sorted order and `renamed` the new id
     * of every entry.
     */
    method ResolveCollisions() returns (r: Result<()>, ghost orders: map<String, seq<String>>,
                                        ghost renamed: map<(String, String), String>)
      requires Indexed()
      modifies this`conSet, doubleDict.Values`fullStr, doubleDict.Values`trimmedFullStr, doubleDict.Values`id
      ensures r.Err? ==> r.error == KeyError || r.error == AttributeError
      ensures r.Err? && r.error == AttributeError ==> exists p :: Stuck(doubleDict, p)
      ensures r.Ok? ==> forall p :: !Stuck(doubleDict, p)
      ensures UniqueTexts(doubleDict) ==> (r.Ok? <==> forall p :: !Stuck(doubleDict, p))
      ensures r.Ok? ==> orders.Keys == IdsOf(doubleDict) && renamed.Keys == doubleDict.Keys
      ensures r.Ok? ==> forall x :: x in orders ==> SortedGroup(Members(doubleDict, x), orders[x])
      ensures r.Ok? ==> forall x, i :: x in orders && 0 <= i < |orders[x]| ==>
        (x, orders[x][i]) in renamed && renamed[(x, orders[x][i])] == IndexedId(x, i)
      ensures r.Ok? ==> forall p :: p in doubleDict ==>
        && doubleDict[p].id == renamed[p]
        && doubleDict[p].fullStr == ReplaceAll(p.1, p.0, renamed[p])
        && doubleDict[p].trimmedFullStr == ReplaceAll(old(doubleDict[p].trimmedFullStr), p.0, renamed[p])
      ensures r.Ok? ==> forall p, q :: p in doubleDict && q in doubleDict && p.0 == q.0 && p != q ==>
        doubleDict[p].id != doubleDict[q].id
      ensures r.Ok? ==> forall p :: p in doubleDict ==> doubleDict[p].id != p.0
      ensures r.Ok? ==> KeyedByText(conSet)
      ensures r.Ok? ==> RenameState(old(conSet), conSet, renamed, OldTexts(doubleDict.Keys))
      ensures r.Ok? ==> Provenance(old(conSet), conSet, doubleDict)
      ensures r.Ok? ==> forall p :: p in doubleDict && ReplaceAll(p.1, p.0, renamed[p]) !in old(conSet) && SoleNewText(renamed, p) ==>
        ReplaceAll(p.1, p.0, renamed[p]) in conSet && conSet[ReplaceAll(p.1, p.0, renamed[p])] == doubleDict[p]
    {
      ghost var s0 := conSet;
      ghost var trimmed0 := map p | p in doubleDict :: doubleDict[p].trimmedFullStr;
      orders, renamed := map[], map[];
      RenamingStart(s0, trimmed0);
      var k := 0;
      while k < |doubleKeys|
        invariant 0 <= k <= |doubleKeys|
        invariant Resolved(doubleDict, doubleKeys, k, orders, renamed)
        invariant Renaming(s0, trimmed0, renamed)
        invariant forall p :: p in renamed ==> !Stuck(doubleDict, p)
      {
        var x := doubleKeys[k];
        var order := SortGroup(Members(doubleDict, x));
        ghost var before := renamed;
        ResolvedFresh(doubleDict, doubleKeys, k, orders, renamed);
        SortedGroupDistinct(doubleDict, x, order);
        r, renamed := RenameGroup(x, order, s0, trimmed0, renamed);
        if r.Err? {
          return;
        }
        assert forall p :: p in renamed ==> !Stuck(doubleDict, p) by {
          forall p | p in renamed ensures !Stuck(doubleDict, p) {
            if p !in before {
              assert p.0 == x;
            }
          }
        }
        ResolvedStep(doubleDict, doubleKeys, k, orders, before, order, renamed);
        orders := orders[x := order];
        k := k + 1;
      }
      ResolvedDone(doubleDict, doubleKeys, orders, renamed);
      RenamingDone(s0, trimmed0, renamed);
      RenamedGroupIdsDistinct(doubleDict, orders, renamed);
      RenamedAllFiled(s0, trimmed0, renamed);
      r := Ok(());
    }

    /**
     * What the rename loop keeps, starting from the set `s0` and the trimmed
     * texts `trimmed0`: the collision index files no record twice, renames only
     * its own entries, its records are as `ObjectsAt` says, and the set is
     * keyed by text and as `RenameState` and `Provenance` say.
     */
    ghost predicate Renaming(s0: map<String, Contingency>, trimmed0: map<(String, String), String>,
                             renamed: map<(String, String), String>)
      reads this, doubleDict.Values, conSet.Values
    {
      && Injective(doubleDict)
      && OldTexts(doubleDict.Keys) <= s0.Keys
      && renamed.Keys <= doubleDict.Keys
      && ObjectsAt(doubleDict, renamed, trimmed0)
      && KeyedByText(conSet)
      && RenameState(s0, conSet, renamed, OldTexts(doubleDict.Keys))
      && Provenance(s0, conSet, doubleDict)
    }

    lemma RenamingStart(s0: map<String, Contingency>, trimmed0: map<(String, String), String>)
      requires Indexed() && s0 == conSet
      requires trimmed0 == map p | p in doubleDict :: doubleDict[p].trimmedFullStr
      ensures Renaming(s0, trimmed0, map[])
    {
      assert Collisions(doubleDict);
      assert OldTexts({}) == {} && NewTexts(map[]) == {};
      forall p | p in doubleDict ensures p in trimmed0 && EntryAt(doubleDict[p], p, map[], trimmed0[p]) {
      }
    }

    lemma RenamingDone(s0: map<String, Contingency>, trimmed0: map<(String, String), String>,
                       renamed: map<(String, String), String>)
      requires Renaming(s0, trimmed0, renamed) && renamed.Keys == doubleDict.Keys
      ensures forall p :: p in doubleDict ==>
        && doubleDict[p].id == renamed[p]
        && doubleDict[p].fullStr == ReplaceAll(p.1, p.0, renamed[p])
        && doubleDict[p].trimmedFullStr == ReplaceAll(trimmed0[p], p.0, renamed[p])
    {
      forall p | p in doubleDict
        ensures && doubleDict[p].id == renamed[p]
                && doubleDict[p].fullStr == ReplaceAll(p.1, p.0, renamed[p])
                && doubleDict[p].trimmedFullStr == ReplaceAll(trimmed0[p], p.0, renamed[p])
      {
        assert EntryAt(doubleDict[p], p, renamed, trimmed0[p]);
      }
    }

    /**
     * One step of the rename loop: the record filed under the entry `p` leaves
     * the set under its text (`KeyError` when that text is missing), takes the
     * id `y` and goes back under its new text.
     */
    method RenameEntry(p: (String, String), y: String, ghost s0: map<String, Contingency>,
                       ghost trimmed0: map<(String, String), String>,
                       ghost renamed: map<(String, String), String>)
      returns (r: Result<()>)
      requires Renaming(s0, trimmed0, renamed) && p in doubleDict && p !in renamed
      modifies this`conSet, {doubleDict[p]}`fullStr, {doubleDict[p]}`trimmedFullStr, {doubleDict[p]}`id
      ensures r.Err? ==> r.error == KeyError || r.error == AttributeError
      ensures r.Err? && r.error == KeyError <==> p.1 !in old(conSet)
      ensures r.Err? && r.error == AttributeError <==> p.1 in old(conSet) && Stuck(doubleDict, p)
      ensures r.Err? && r.error == KeyError ==> conSet == old(conSet)
      ensures r.Err? && r.error == AttributeError ==> conSet == old(conSet) - {p.1}
      ensures r.Ok? ==> conSet == AddKeep(old(conSet) - {p.1}, ReplaceAll(p.1, p.0, y), doubleDict[p])
      ensures r.Ok? ==> Renaming(s0, trimmed0, renamed[p := y])
    {
      var con := doubleDict[p];
      ObjectsAtRemove(doubleDict, p, renamed, trimmed0);
      if con.fullStr !in conSet {
        return Err(KeyError);
      }
      ghost var s := conSet;
      conSet := conSet - {con.fullStr};
      KeyedByTextRemove(s, con.fullStr, con);
      r := con.ChangeId(y);
      if r.Err? {
        return;
      }
      conSet := AddKeep(conSet, con.fullStr, con);
      ProvenanceStep(s0, s, doubleDict, p.1, con.fullStr, con);
      KeyedByTextAdd(s - {p.1}, con.fullStr, con);
      ObjectsAtAdd(doubleDict, p, renamed, y, trimmed0);
      RenameStateStep(s0, s, renamed, doubleDict.Keys, p, y, con);
    }

    /** The renames of the group `x` in its sorted `order`, after the entries `renamed0`. */
    method RenameGroup(x: String, order: seq<String>, ghost s0: map<String, Contingency>,
                       ghost trimmed0: map<(String, String), String>,
                       ghost renamed0: map<(String, String), String>)
      returns (r: Result<()>, ghost renamed: map<(String, String), String>)
      requires Renaming(s0, trimmed0, renamed0)
      requires KeyOrder(order, set p | p in doubleDict && p.0 == x :: p.1)
      requires forall p :: p in renamed0 ==> p.0 != x
      modifies this`conSet, doubleDict.Values`fullStr, doubleDict.Values`trimmedFullStr, doubleDict.Values`id
      ensures r.Err? ==> r.error == KeyError || r.error == AttributeError
      ensures r.Err? && r.error == AttributeError ==> exists i :: 0 <= i < |order| && Stuck(doubleDict, (x, order[i]))
      ensures UniqueTexts(doubleDict) && r.Err? ==> r.error == AttributeError
      ensures r.Ok? ==> GroupDone(doubleDict.Keys, x, order, renamed0, renamed)
      ensures r.Ok? ==> Renaming(s0, trimmed0, renamed)
      ensures r.Ok? ==> forall p: (String, String) :: p.0 == x ==> !Stuck(doubleDict, p)
    {
      renamed := renamed0;
      GroupStart(doubleDict.Keys, x, order, renamed0);
      var i := 0;
      while i < |order|
        invariant GroupProgress(doubleDict.Keys, x, order, i, renamed0, renamed)
        invariant Renaming(s0, trimmed0, renamed)
        invariant forall j :: 0 <= j < i ==> !Stuck(doubleDict, (x, order[j]))
      {
        var p := (x, order[i]);
        var y := IndexedId(x, i);
        GroupNext(doubleDict.Keys, x, order, i, renamed0, renamed);
        if UniqueTexts(doubleDict) {
          Present(s0, trimmed0, renamed, p);
        }
        r := RenameEntry(p, y, s0, trimmed0, renamed);
        if r.Err? {
          return r, renamed;
        }
        renamed := renamed[p := y];
        i := i + 1;
      }
      GroupProgressDone(doubleDict.Keys, x, order, renamed0, renamed);
      forall p: (String, String) | p.0 == x ensures !Stuck(doubleDict, p) {
        if p in doubleDict {
          assert p.1 in set q | q in doubleDict && q.0 == x :: q.1;
          var j :| 0 <= j < |order| && order[j] == p.1;
        }
      }
      r := Ok(());
    }

    /**
     * A renamed record whose new text was not in the set before and is no
     * other entry's new text is the record filed under that text
     * (main.py:114 adds the renamed record itself).
     */
    lemma RenamedFiled(s0: map<String, Contingency>, trimmed0: map<(String, String), String>,
                       renamed: map<(String, String), String>, p: (String, String))
      requires Renaming(s0, trimmed0, renamed) && renamed.Keys == doubleDict.Keys
      requires p in doubleDict && ReplaceAll(p.1, p.0, renamed[p]) !in s0 && SoleNewText(renamed, p)
      ensures ReplaceAll(p.1, p.0, renamed[p]) in conSet && conSet[ReplaceAll(p.1, p.0, renamed[p])] == doubleDict[p]
    {
      var t := ReplaceAll(p.1, p.0, renamed[p]);
      assert t in NewTexts(renamed);
      assert t in conSet;
      var o := conSet[t];
      assert o.fullStr == t;
      if o in doubleDict.Values {
        var q :| q in doubleDict && doubleDict[q] == o;
        assert EntryAt(doubleDict[q], q, renamed, trimmed0[q]);
        assert q == p;
      }
    }

    /** `RenamedFiled` for every entry of the index. */
    lemma RenamedAllFiled(s0: map<String, Contingency>, trimmed0: map<(String, String), String>,
                          renamed: map<(String, String), String>)
      requires Renaming(s0, trimmed0, renamed) && renamed.Keys == doubleDict.Keys
      ensures forall p :: p in doubleDict && ReplaceAll(p.1, p.0, renamed[p]) !in s0 && SoleNewText(renamed, p) ==>
        ReplaceAll(p.1, p.0, renamed[p]) in conSet && conSet[ReplaceAll(p.1, p.0, renamed[p])] == doubleDict[p]
    {
      forall p | p in doubleDict && ReplaceAll(p.1, p.0, renamed[p]) !in s0 && SoleNewText(renamed, p)
        ensures ReplaceAll(p.1, p.0, renamed[p]) in conSet && conSet[ReplaceAll(p.1, p.0, renamed[p])] == doubleDict[p]
      {
        RenamedFiled(s0, trimmed0, renamed, p);
      }
    }

    /**
     * The rename does not make ids unique across the set: a record `s0[t]`
     * read with the id `x_0` and outside the collision index keeps its place
     * and its id, while the record filed under `(x, u)`, first in its group,
     * is renamed to `x_0` too. The two are different records.
     */
    lemma RenamedIdMayBeTaken(s0: map<String, Contingency>, renamed: map<(String, String), String>,
                              x: String, u: String, t: String)
      requires KeyedByText(conSet) && RenameState(s0, conSet, renamed, OldTexts(doubleDict.Keys))
      requires renamed.Keys == doubleDict.Keys
      requires forall p :: p in doubleDict ==>
        doubleDict[p].id == renamed[p] && doubleDict[p].fullStr == ReplaceAll(p.1, p.0, renamed[p])
      requires (x, u) in doubleDict && renamed[(x, u)] == IndexedId(x, 0)
      requires t in s0 && t !in OldTexts(doubleDict.Keys) && t !in NewTexts(renamed)
      requires s0[t].id == IndexedId(x, 0)
      ensures t in conSet && conSet[t] != doubleDict[(x, u)]
      ensures conSet[t].id == doubleDict[(x, u)].id == IndexedId(x, 0)
    {
      assert ReplaceAll(u, x, renamed[(x, u)]) in NewTexts(renamed);
    }

    /** With distinct texts across ids, the text of an entry not yet renamed is still in the set. */
    lemma Present(s0: map<String, Contingency>, trimmed0: map<(String, String), String>,
                  renamed: map<(String, String), String>, p: (String, String))
      requires Renaming(s0, trimmed0, renamed) && p in doubleDict && p !in renamed
      requires UniqueTexts(doubleDict)
      ensures p.1 in conSet
    {
      assert p.1 in OldTexts(doubleDict.Keys);
      forall q | q in renamed ensures q.1 != p.1 {
        assert q in doubleDict;
      }
    }
  }

  /**
   * The creating half of the reading loop: a record per text, up to the first
   * text the header grammar refuses.
   */
  method ReadAll(texts: seq<String>, source: Option<String>) returns (r: Result<()>, made: seq<Contingency>)
    ensures |made| <= |texts|
    ensures r.Ok? ==> |made| == |texts|
    ensures r.Err? ==> |made| < |texts| && !IsRecord(texts[|made|]) && r.error == ValueError
    ensures forall k :: 0 <= k < |made| ==> made[k].fullStr == texts[k] && made[k].duplicates == []
    ensures forall k :: 0 <= k < |made| ==> fresh(made[k])
    ensures forall j, k :: 0 <= j < k < |made| ==> made[j] != made[k]
  {
    made := [];
    var i := 0;
    while i < |texts|
      invariant 0 <= i <= |texts| && |made| == i
      invariant forall k :: 0 <= k < i ==> made[k].fullStr == texts[k] && made[k].duplicates == [] && fresh(made[k])
      invariant forall j, k :: 0 <= j < k < i ==> made[j] != made[k]
    {
      var c := Read(texts[i], source);
      if c.Err? {
        return Err(ValueError), made;
      }
      made := made + [c.value];
      i := i + 1;
    }
    return Ok(()), made;
  }

  /** The text is the rendering of a well-formed header match. */
  ghost predicate IsRecord(t: String) {
    exists m :: WellFormed(m) && Render(m) == t
  }

  /**
   * `Contingency(text, source)` as the reading loop uses it: `ValueError`
   * exactly when the text is no record's rendering.
   */
  method Read(text: String, source: Option<String>) returns (r: Result<Contingency>)
    ensures r.Err? <==> !IsRecord(text)
    ensures r.Err? ==> r.error == ValueError
    ensures r.Ok? ==> fresh(r.value) && r.value.fullStr == text && r.value.duplicates == []
  {
    r := Create(text, source);
    ParseFailsIff(text);
  }

  /** The reading-loop invariant over the values of the four indexes. */
  ghost predicate IndexState(s: map<String, Contingency>, d: map<String, Contingency>, dd: Doubles, order: seq<String>)
    reads s.Values, d.Values, dd.Values
  {
    KeyedByText(s) && IdIndex(d, s) && Collisions(dd) && KeyOrder(order, IdsOf(dd))
    && (forall p :: p in dd ==> p.1 in s)
  }

  /** One step of the reading loop keeps the invariant. */
  lemma IngestStep(s: map<String, Contingency>, d: map<String, Contingency>, dd: Doubles,
                   order: seq<String>, c: Contingency)
    requires IndexState(s, d, dd, order)
    ensures var collide := c.fullStr !in s && c.id in d;
      IndexState(AddKeep(s, c.fullStr, c), d[c.id := c],
                 if collide then AddDouble(AddDouble(dd, c.id, c.fullStr, c), c.id, d[c.id].fullStr, d[c.id]) else dd,
                 if collide && c.id !in order then order + [c.id] else order)
  {
    if c.fullStr !in s && c.id in d {
      KeyOrderAdd(order, dd, c.id, c.fullStr, c, d[c.id].fullStr, d[c.id]);
    }
  }

  lemma KeyOrderAdd(order: seq<String>, d: Doubles, x: String, t: String, c: Contingency, u: String, h: Contingency)
    requires KeyOrder(order, IdsOf(d))
    ensures KeyOrder(if x in order then order else order + [x], IdsOf(AddDouble(AddDouble(d, x, t, c), x, u, h)))
  {
    var d' := AddDouble(AddDouble(d, x, t, c), x, u, h);
    assert IdsOf(d') == IdsOf(d) + {x} by {
      assert (x, t) in d';
    }
  }

  /** Filing `made[i]` under `ids[i]` keeps every last-read record filed. */
  lemma LastStep(ids: seq<String>, made: seq<Contingency>, i: nat, d: map<String, Contingency>, d': map<String, Contingency>)
    requires i < |ids| == |made| && d' == d[ids[i] := made[i]]
    requires forall k :: 0 <= k < i && LastWithId(ids[..i], k) ==> ids[k] in d && d[ids[k]] == made[k]
    ensures forall k :: 0 <= k < i + 1 && LastWithId(ids[..i + 1], k) ==> ids[k] in d' && d'[ids[k]] == made[k]
  {
    TakeSnoc(ids, i);
    LastWithIdSnoc(ids[..i], ids[i]);
  }

  /** The texts of a sequence, as a set. */
  function Elems(ts: seq<String>): set<String> {
    set t | t in ts
  }

  lemma TakeSnoc(s: seq<String>, i: nat)
    requires i < |s|
    ensures s[..i + 1] == s[..i] + [s[i]]
  {
  }

  /** No record before the `k`-th has its text. */
  predicate FirstWithText(ts: seq<String>, k: nat)
    requires k < |ts|
  {
    forall j :: 0 <= j < k ==> ts[j] != ts[k]
  }

  /** No id after `ids[k]` equals it: the record read `k`-th is the last with its id. */
  predicate LastWithId(ids: seq<String>, k: nat)
    requires k < |ids|
  {
    forall j :: k < j < |ids| ==> ids[j] != ids[k]
  }

  lemma LastWithIdSnoc(ids: seq<String>, x: String)
    ensures forall k :: 0 <= k < |ids| ==> (LastWithId(ids + [x], k) <==> LastWithId(ids, k) && x != ids[k])
    ensures LastWithId(ids + [x], |ids|)
  {
    forall k | 0 <= k < |ids|
      ensures LastWithId(ids + [x], k) <==> LastWithId(ids, k) && x != ids[k]
    {
      var m := ids + [x];
      assert m[|ids|] == x;
      assert forall j :: 0 <= j < |ids| ==> m[j] == ids[j];
    }
  }

  // ---------------------------------------------------------------- collision rename

  /** `f"{id_}_{i}"`: the id the rename gives the record at position `i` of its sorted group. */
  function IndexedId(x: String, i: nat): String {
    x + "_" + NatToString(i)
  }

  /** Distinct positions get distinct ids, and no position keeps the colliding id. */
  lemma IndexedIdInjective(x: String, i: nat, j: nat)
    ensures IndexedId(x, i) == IndexedId(x, j) <==> i == j
    ensures IndexedId(x, i) != x && StartsWith(IndexedId(x, i), x + "_")
  {
    var a, b := IndexedId(x, i), IndexedId(x, j);
    assert a[|x| + 1..] == NatToString(i);
    assert b[|x| + 1..] == NatToString(j);
    if a == b {
      NatToStringInjective(i, j);
    }
    assert a[..|x| + 1] == x + "_";
  }

  /**
   * Once every group is renamed in its sorted order, two entries of one group
   * get different ids, and no entry keeps the id its group collided on.
   */
  lemma RenamedGroupIdsDistinct(dd: Doubles, orders: map<String, seq<String>>, renamed: map<(String, String), String>)
    requires orders.Keys == IdsOf(dd) && renamed.Keys == dd.Keys
    requires forall x :: x in orders ==> SortedGroup(Members(dd, x), orders[x])
    requires forall x, i :: x in orders && 0 <= i < |orders[x]| ==>
      (x, orders[x][i]) in renamed && renamed[(x, orders[x][i])] == IndexedId(x, i)
    ensures forall p, q :: p in dd && q in dd && p.0 == q.0 && p != q ==> renamed[p] != renamed[q]
    ensures forall p :: p in dd ==> renamed[p] != p.0
  {
    forall p, q | p in dd && q in dd && p.0 == q.0 && p != q ensures renamed[p] != renamed[q] {
      var i, j := PositionIn(dd, orders, p), PositionIn(dd, orders, q);
      assert renamed[p] == IndexedId(p.0, i) && renamed[q] == IndexedId(p.0, j);
      IndexedIdInjective(p.0, i, j);
    }
    forall p | p in dd ensures renamed[p] != p.0 {
      var i := PositionIn(dd, orders, p);
      assert renamed[p] == IndexedId(p.0, i);
      IndexedIdInjective(p.0, i, 0);
    }
  }

  /** The position of the entry `p` in its group's sorted order. */
  ghost function PositionIn(dd: Doubles, orders: map<String, seq<String>>, p: (String, String)): (i: nat)
    requires p in dd && orders.Keys == IdsOf(dd)
    requires forall x :: x in orders ==> SortedGroup(Members(dd, x), orders[x])
    ensures p.0 in orders && i < |orders[p.0]| && orders[p.0][i] == p.1
  {
    assert p.0 in IdsOf(dd);
    assert p.1 in Members(dd, p.0);
    assert SortedGroup(Members(dd, p.0), orders[p.0]);
    assert p.1 in orders[p.0];
    var i :| 0 <= i < |orders[p.0]| && orders[p.0][i] == p.1;
    i
  }

  /** The sort key `(lines_str, full_str)` of the group member with text `t`. */
  function GroupKey(g: map<String, Contingency>, t: String): Key
    requires t in g
  {
    [g[t].linesStr, t]
  }

  /**
   * `order` lists every text of the group `g`, ascending by `(lines_str,
   * full_str)`; being strictly ascending, it lists each text once.
   */
  ghost predicate SortedGroup(g: map<String, Contingency>, order: seq<String>) {
    (forall t :: t in g <==> t in order)
    && (forall i, j :: 0 <= i < j < |order| ==>
          order[i] in g && order[j] in g && KeyLess(GroupKey(g, order[i]), GroupKey(g, order[j])))
  }

  /**
   * Only one order is sorted: the position, and so the new id, of every member
   * of a colliding group is fixed by the group alone.
   */
  lemma {:induction false} SortedGroupUnique(g: map<String, Contingency>, a: seq<String>, b: seq<String>)
    requires SortedGroup(g, a) && SortedGroup(g, b)
    ensures a == b
    decreases |a|
  {
    if a == [] || b == [] {
      SortedGroupEmpty(g, a);
      SortedGroupEmpty(g, b);
    } else {
      if a[0] != b[0] {
        assert a[0] in a && b[0] in b;
        SortedGroupFirst(g, a, b[0]);
        SortedGroupFirst(g, b, a[0]);
        KeyLessTransitive(GroupKey(g, a[0]), GroupKey(g, b[0]), GroupKey(g, a[0]));
        KeyLessIrreflexive(GroupKey(g, a[0]));
      }
      SortedGroupTail(g, a);
      SortedGroupTail(g, b);
      SortedGroupUnique(g - {a[0]}, a[1..], b[1..]);
      assert a == [a[0]] + a[1..] && b == [b[0]] + b[1..];
    }
  }

  lemma SortedGroupEmpty(g: map<String, Contingency>, a: seq<String>)
    requires SortedGroup(g, a)
    ensures a == [] <==> g == map[]
  {
    if a != [] {
      assert a[0] in a;
    } else {
      assert g.Keys == {};
    }
  }

  /** The first text of a sorted group has the least key. */
  lemma SortedGroupFirst(g: map<String, Contingency>, a: seq<String>, t: String)
    requires SortedGroup(g, a) && a != [] && t in g && t != a[0]
    ensures a[0] in g && KeyLess(GroupKey(g, a[0]), GroupKey(g, t))
  {
    assert t in a;
    var k :| 0 <= k < |a| && a[k] == t;
  }

  /** Without its first (least) text, a sorted group is the sorted rest of the group. */
  lemma SortedGroupTail(g: map<String, Contingency>, a: seq<String>)
    requires SortedGroup(g, a) && a != []
    ensures SortedGroup(g - {a[0]}, a[1..])
  {
    var g' := g - {a[0]};
    assert a[0] in a;
    forall t ensures t in g' <==> t in a[1..] {
      if t in a[1..] {
        var k :| 0 <= k < |a[1..]| && a[1..][k] == t;
        assert a[k + 1] == t;
        KeyLessIrreflexive(GroupKey(g, a[0]));
      }
      if t in g' {
        assert t in a;
        var k :| 0 <= k < |a| && a[k] == t;
        assert k != 0 && a[1..][k - 1] == t;
      }
    }
    forall i, j | 0 <= i < j < |a[1..]|
      ensures a[1..][i] in g' && a[1..][j] in g' && KeyLess(GroupKey(g', a[1..][i]), GroupKey(g', a[1..][j]))
    {
      assert a[1..][i] == a[i + 1] && a[1..][j] == a[j + 1];
      assert a[i + 1] in a[1..] && a[j + 1] in a[1..];
    }
  }

  /** The elements of a set, each once, in an order left open (Python's set iteration). */
  method SetToSeq<T>(s: set<T>) returns (xs: seq<T>)
    ensures forall t :: t in s <==> t in xs
    ensures forall i, j :: 0 <= i < j < |xs| ==> xs[i] != xs[j]
  {
    xs := [];
    var rest := s;
    while rest != {}
      invariant rest <= s
      invariant forall t :: t in s <==> t in xs || t in rest
      invariant forall t :: t in xs ==> t !in rest
      invariant forall i, j :: 0 <= i < j < |xs| ==> xs[i] != xs[j]
      decreases rest
    {
      var t :| t in rest;
      xs := xs + [t];
      rest := rest - {t};
    }
  }

  /** `sorted(set_, key=lambda x: (x.lines_str, x.full_str))`, as the list of the members' texts. */
  method SortGroup(g: map<String, Contingency>) returns (order: seq<String>)
    ensures SortedGroup(g, order)
  {
    var ts := SetToSeq(g.Keys);
    var keyed := seq(|ts|, i requires 0 <= i < |ts| => (GroupKey(g, ts[i]), ts[i]));
    KeyedTexts(g, ts, keyed);
    SortByKeyStrict(keyed);
    var sorted := SortByKey(keyed);
    KeyedGroupPermuted(g, keyed, sorted);
    order := Elements(sorted);
    SortedKeyedGroup(g, sorted);
  }

  /** Every pair of `xs` is a member's text with its sort key. */
  ghost predicate KeyedGroup(g: map<String, Contingency>, xs: seq<(Key, String)>)
    reads g.Values
  {
    forall e :: e in xs ==> e.1 in g && e.0 == GroupKey(g, e.1)
  }

  lemma KeyedTexts(g: map<String, Contingency>, ts: seq<String>, keyed: seq<(Key, String)>)
    requires forall t :: t in g <==> t in ts
    requires forall i, j :: 0 <= i < j < |ts| ==> ts[i] != ts[j]
    requires |keyed| == |ts| && forall i :: 0 <= i < |ts| ==> keyed[i] == (GroupKey(g, ts[i]), ts[i])
    ensures KeyedGroup(g, keyed) && DistinctKeys(keyed)
    ensures forall t :: t in g <==> t in Elements(keyed)
  {
    assert Elements(keyed) == ts;
    forall i, j | 0 <= i < j < |keyed| ensures keyed[i].0 != keyed[j].0 {
      assert keyed[i].0[1] == ts[i] && keyed[j].0[1] == ts[j];
    }
  }

  lemma KeyedGroupPermuted(g: map<String, Contingency>, xs: seq<(Key, String)>, ys: seq<(Key, String)>)
    requires KeyedGroup(g, xs) && multiset(ys) == multiset(xs)
    requires multiset(Elements(ys)) == multiset(Elements(xs))
    requires forall t :: t in g <==> t in Elements(xs)
    ensures KeyedGroup(g, ys)
    ensures forall t :: t in g <==> t in Elements(ys)
  {
    forall e | e in ys ensures e.1 in g && e.0 == GroupKey(g, e.1) {
      assert e in multiset(ys);
    }
    forall t ensures t in Elements(ys) <==> t in Elements(xs) {
      assert t in Elements(ys) <==> t in multiset(Elements(ys));
      assert t in Elements(xs) <==> t in multiset(Elements(xs));
    }
  }

  lemma SortedKeyedGroup(g: map<String, Contingency>, xs: seq<(Key, String)>)
    requires StrictlySorted(xs) && KeyedGroup(g, xs)
    requires forall t :: t in g <==> t in Elements(xs)
    ensures SortedGroup(g, Elements(xs))
  {
    var a := Elements(xs);
    forall i, j | 0 <= i < j < |a|
      ensures a[i] in g && a[j] in g && KeyLess(GroupKey(g, a[i]), GroupKey(g, a[j]))
    {
      assert xs[i] in xs && xs[j] in xs;
    }
  }

  /** The texts the entries `ps` of the collision index were filed under. */
  function OldTexts(ps: set<(String, String)>): set<String> {
    set p | p in ps :: p.1
  }

  /** The texts the renamed entries have after `change_id`. */
  function NewTexts(renamed: map<(String, String), String>): set<String> {
    set p | p in renamed :: ReplaceAll(p.1, p.0, renamed[p])
  }

  /**
   * The set `s` once the entries of `renamed` have been renamed, starting from
   * `s0`: it holds only texts it held before and were not renamed away, or new
   * texts; texts untouched by the rename keep their record; new texts that no
   * entry had before are present; old texts that no rename produced are gone;
   * every text of `s0` that no renamed entry had is still present.
   */
  ghost predicate RenameState(s0: map<String, Contingency>, s: map<String, Contingency>, renamed: map<(String, String), String>, olds: set<String>) {
    (forall t :: t in s ==> (t in s0 && t !in OldTexts(renamed.Keys)) || t in NewTexts(renamed))
    && (forall t :: t in s0 && t !in OldTexts(renamed.Keys) && t !in NewTexts(renamed) ==> t in s && s[t] == s0[t])
    && (forall t :: t in NewTexts(renamed) && t !in olds ==> t in s)
    && (forall t :: t in OldTexts(renamed.Keys) && t !in NewTexts(renamed) ==> t !in s)
    && (forall t :: t in s0 && t !in OldTexts(renamed.Keys) ==> t in s)
  }

  /**
   * Every record of the set `s` is in the collision index `dd` or is the
   * record `s0` held under the same text.
   */
  ghost predicate Provenance(s0: map<String, Contingency>, s: map<String, Contingency>, dd: Doubles) {
    forall t :: t in s ==> s[t] in dd.Values || (t in s0 && s[t] == s0[t])
  }

  /** Removing a text and adding a record of the index keeps `Provenance`. */
  lemma ProvenanceStep(s0: map<String, Contingency>, s: map<String, Contingency>, dd: Doubles,
                       t: String, t': String, o: Contingency)
    requires Provenance(s0, s, dd) && o in dd.Values
    ensures Provenance(s0, s - {t}, dd)
    ensures Provenance(s0, AddKeep(s - {t}, t', o), dd)
  {
  }

  /** No other renamed entry gets the new text of `p`. */
  ghost predicate SoleNewText(renamed: map<(String, String), String>, p: (String, String))
    requires p in renamed
  {
    forall q :: q in renamed && ReplaceAll(q.1, q.0, renamed[q]) == ReplaceAll(p.1, p.0, renamed[p]) ==> q == p
  }

  lemma OldTextsAdd(ps: set<(String, String)>, p: (String, String))
    ensures OldTexts(ps + {p}) == OldTexts(ps) + {p.1}
  {
  }

  lemma NewTextsAdd(renamed: map<(String, String), String>, p: (String, String), y: String)
    requires p !in renamed
    ensures NewTexts(renamed[p := y]) == NewTexts(renamed) + {ReplaceAll(p.1, p.0, y)}
  {
    var r := renamed[p := y];
    forall t | t in NewTexts(renamed) ensures t in NewTexts(r) {
      var q :| q in renamed && t == ReplaceAll(q.1, q.0, renamed[q]);
      assert r[q] == renamed[q];
    }
    assert p in r;
  }

  /**
   * One rename step: remove the old text `p.1`, then file the record under its
   * new text (kept if a record already sits there).
   */
  lemma RenameStateStep(s0: map<String, Contingency>, s: map<String, Contingency>,
                        renamed: map<(String, String), String>, ks: set<(String, String)>,
                        p: (String, String), y: String, o: Contingency)
    requires RenameState(s0, s, renamed, OldTexts(ks))
    requires p in ks && p !in renamed && renamed.Keys <= ks
    ensures RenameState(s0, AddKeep(s - {p.1}, ReplaceAll(p.1, p.0, y), o), renamed[p := y], OldTexts(ks))
  {
    assert OldTexts(renamed.Keys) <= OldTexts(ks);
    OldTextsAdd(renamed.Keys, p);
    NewTextsAdd(renamed, p, y);
    assert renamed[p := y].Keys == renamed.Keys + {p};
  }

  /**
   * No text is filed under two ids. It holds of every index the reading loop
   * builds, because a record's id is read from its text (`IdsFromTexts`).
   */
  ghost predicate UniqueTexts(dd: Doubles) {
    forall p, q :: p in dd && q in dd && p.1 == q.1 ==> p == q
  }

  /** Records whose ids are those their texts' headers give never share a text across ids. */
  lemma IdsFromTexts(dd: Doubles)
    requires Collisions(dd)
    requires forall p :: p in dd ==> Parse(dd[p].fullStr).Ok? && dd[p].id == Parse(dd[p].fullStr).value.fields.id
    ensures UniqueTexts(dd)
  {
  }

  /**
   * The record filed under `p` holds its id `p.0` as a whole component of a
   * line pair, so `change_id` raises `AttributeError` on it.
   */
  predicate Stuck(dd: Doubles, p: (String, String)) {
    p in dd && IdInLines(dd[p].lines, p.0)
  }

  /** No record is filed under two entries of the collision index. */
  ghost predicate Injective(dd: Doubles) {
    forall p, q :: p in dd && q in dd && dd[p] == dd[q] ==> p == q
  }

  /**
   * The records of the collision index as the rename leaves them: a renamed
   * entry's record carries its new id and the texts with the old id replaced
   * by it; any other record still has its id and text; `trimmed0` holds the
   * trimmed texts from before the rename.
   */
  ghost predicate ObjectsAt(dd: Doubles, renamed: map<(String, String), String>, trimmed0: map<(String, String), String>)
    reads dd.Values
  {
    forall p :: p in dd ==> p in trimmed0 && EntryAt(dd[p], p, renamed, trimmed0[p])
  }

  /** The record `o` filed under the entry `p`, as the rename leaves it. */
  ghost predicate EntryAt(o: Contingency, p: (String, String), renamed: map<(String, String), String>, trimmed: String)
    reads o
  {
    if p in renamed then
      o.id == renamed[p] && o.fullStr == ReplaceAll(p.1, p.0, renamed[p])
      && o.trimmedFullStr == ReplaceAll(trimmed, p.0, renamed[p])
    else
      o.id == p.0 && o.fullStr == p.1 && o.trimmedFullStr == trimmed
  }

  lemma ObjectsAtRemove(dd: Doubles, p: (String, String), renamed: map<(String, String), String>,
                        trimmed0: map<(String, String), String>)
    requires ObjectsAt(dd, renamed, trimmed0) && Injective(dd) && p in dd && p !in renamed
    ensures ObjectsAt(dd - {p}, renamed, trimmed0) && dd[p] !in (dd - {p}).Values
    ensures p in trimmed0 && dd[p].id == p.0 && dd[p].fullStr == p.1 && dd[p].trimmedFullStr == trimmed0[p]
  {
    var rest := dd - {p};
    forall q | q in rest ensures rest[q] != dd[p] {
      assert dd[q] == rest[q];
    }
    forall q | q in rest ensures q in trimmed0 && EntryAt(rest[q], q, renamed, trimmed0[q]) {
      assert dd[q] == rest[q];
    }
  }

  lemma ObjectsAtAdd(dd: Doubles, p: (String, String), renamed: map<(String, String), String>,
                     y: String, trimmed0: map<(String, String), String>)
    requires p in dd && ObjectsAt(dd - {p}, renamed, trimmed0) && p in trimmed0
    requires dd[p].id == y && dd[p].fullStr == ReplaceAll(p.1, p.0, y)
    requires dd[p].trimmedFullStr == ReplaceAll(trimmed0[p], p.0, y)
    ensures ObjectsAt(dd, renamed[p := y], trimmed0)
  {
    var r := renamed[p := y];
    var rest := dd - {p};
    forall q | q in dd ensures q in trimmed0 && EntryAt(dd[q], q, r, trimmed0[q]) {
      if q != p {
        assert rest[q] == dd[q];
        assert EntryAt(rest[q], q, renamed, trimmed0[q]);
        assert q in r <==> q in renamed;
      }
    }
  }

  /** Filing a record under its own text keeps a set keyed by text. */
  lemma KeyedByTextAdd(s: map<String, Contingency>, t: String, o: Contingency)
    requires KeyedByText(s) && o.fullStr == t
    ensures KeyedByText(AddKeep(s, t, o))
  {
  }

  /** Taking a record out of a set keyed by text leaves no trace of it. */
  lemma KeyedByTextRemove(s: map<String, Contingency>, t: String, o: Contingency)
    requires KeyedByText(s) && o.fullStr == t
    ensures KeyedByText(s - {t}) && o !in (s - {t}).Values
  {
    forall u | u in s - {t} ensures (s - {t})[u] != o {
      assert s[u].fullStr == u;
    }
  }

  /** A sorted group lists each of its texts once. */
  lemma SortedGroupDistinct(dd: Doubles, x: String, order: seq<String>)
    requires SortedGroup(Members(dd, x), order)
    ensures KeyOrder(order, set p | p in dd && p.0 == x :: p.1)
  {
    var g := Members(dd, x);
    forall t ensures t in g <==> t in set p | p in dd && p.0 == x :: p.1 {
      if t in g {
        assert (x, t) in dd;
      }
    }
    forall i, j | 0 <= i < j < |order| ensures order[i] != order[j] {
      if order[i] == order[j] {
        KeyLessIrreflexive(GroupKey(g, order[i]));
      }
    }
  }

  /**
   * The renames of the group `x` after the first `i` texts of its `order`,
   * which lists the group's texts once each: the earlier entries `renamed0`,
   * none of them in this group, as they were, and the `j`-th text renamed to
   * `id_j`.
   */
  ghost predicate GroupProgress(ks: set<(String, String)>, x: String, order: seq<String>, i: nat,
                                renamed0: map<(String, String), String>, renamed: map<(String, String), String>)
  {
    && i <= |order|
    && KeyOrder(order, set p | p in ks && p.0 == x :: p.1)
    && (forall p :: p in renamed0 ==> p.0 != x)
    && (forall p :: p in renamed <==> p in renamed0 || (p.0 == x && p.1 in order[..i]))
    && (forall p :: p in renamed0 ==> renamed[p] == renamed0[p])
    && (forall j :: 0 <= j < i ==> (x, order[j]) in renamed && renamed[(x, order[j])] == IndexedId(x, j))
  }

  lemma GroupStart(ks: set<(String, String)>, x: String, order: seq<String>, renamed0: map<(String, String), String>)
    requires KeyOrder(order, set p | p in ks && p.0 == x :: p.1)
    requires forall p :: p in renamed0 ==> p.0 != x
    ensures GroupProgress(ks, x, order, 0, renamed0, renamed0)
  {
    assert order[..0] == [];
  }

  /** The `i`-th text of the order names an entry not yet renamed; renaming it advances the group. */
  lemma GroupNext(ks: set<(String, String)>, x: String, order: seq<String>, i: nat,
                  renamed0: map<(String, String), String>, renamed: map<(String, String), String>)
    requires GroupProgress(ks, x, order, i, renamed0, renamed) && i < |order|
    ensures (x, order[i]) in ks && (x, order[i]) !in renamed
    ensures GroupProgress(ks, x, order, i + 1, renamed0, renamed[(x, order[i]) := IndexedId(x, i)])
  {
    assert order[i] in order;
    assert order[i] !in order[..i];
    TakeSnoc(order, i);
    var r := renamed[(x, order[i]) := IndexedId(x, i)];
    forall p ensures p in r <==> p in renamed0 || (p.0 == x && p.1 in order[..i + 1]) {
      assert p.1 in order[..i + 1] <==> p.1 in order[..i] || p.1 == order[i];
    }
    forall j | 0 <= j < i ensures (x, order[j]) in r && r[(x, order[j])] == IndexedId(x, j) {
      assert order[j] in order[..i];
    }
  }

  lemma GroupProgressDone(ks: set<(String, String)>, x: String, order: seq<String>,
                          renamed0: map<(String, String), String>, renamed: map<(String, String), String>)
    requires GroupProgress(ks, x, order, |order|, renamed0, renamed)
    ensures GroupDone(ks, x, order, renamed0, renamed)
  {
    assert order[..|order|] == order;
    forall p | p in ks && p.0 == x ensures p in renamed {
      assert p.1 in set q | q in ks && q.0 == x :: q.1;
    }
  }

  /** The group `x` renamed in `order`, on top of the entries `renamed0`. */
  ghost predicate GroupDone(ks: set<(String, String)>, x: String, order: seq<String>,
                            renamed0: map<(String, String), String>, renamed: map<(String, String), String>)
  {
    && (forall p :: p in renamed <==> p in renamed0 || (p in ks && p.0 == x))
    && (forall p :: p in renamed0 ==> renamed[p] == renamed0[p])
    && (forall i :: 0 <= i < |order| ==> (x, order[i]) in renamed && renamed[(x, order[i])] == IndexedId(x, i))
  }

  /**
   * The rename loop after the first `k` ids of `ks`: `orders` holds their
   * groups' sorted orders and `renamed` the new ids of their entries.
   */
  ghost predicate Resolved(dd: Doubles, ks: seq<String>, k: nat, orders: map<String, seq<String>>,
                           renamed: map<(String, String), String>)
  {
    && k <= |ks|
    && (forall x :: x in orders <==> x in ks[..k])
    && (forall p :: p in renamed <==> p in dd && p.0 in ks[..k])
    && (forall x :: x in orders ==> SortedGroup(Members(dd, x), orders[x]))
    && (forall x, i :: x in orders && 0 <= i < |orders[x]| ==>
          (x, orders[x][i]) in renamed && renamed[(x, orders[x][i])] == IndexedId(x, i))
  }

  lemma ResolvedFresh(dd: Doubles, ks: seq<String>, k: nat, orders: map<String, seq<String>>,
                      renamed: map<(String, String), String>)
    requires Resolved(dd, ks, k, orders, renamed) && k < |ks|
    requires forall i, j :: 0 <= i < j < |ks| ==> ks[i] != ks[j]
    ensures forall p :: p in renamed ==> p.0 != ks[k]
  {
    forall p | p in renamed ensures p.0 != ks[k] {
      var j :| 0 <= j < k && ks[..k][j] == p.0;
    }
  }

  lemma ResolvedStep(dd: Doubles, ks: seq<String>, k: nat, orders: map<String, seq<String>>,
                     renamed: map<(String, String), String>, order: seq<String>,
                     renamed': map<(String, String), String>)
    requires Resolved(dd, ks, k, orders, renamed) && k < |ks|
    requires SortedGroup(Members(dd, ks[k]), order)
    requires GroupDone(dd.Keys, ks[k], order, renamed, renamed')
    ensures Resolved(dd, ks, k + 1, orders[ks[k] := order], renamed')
  {
    TakeSnoc(ks, k);
    var x := ks[k];
    var o := orders[x := order];
    forall y | y in o ensures SortedGroup(Members(dd, y), o[y]) {
      if y != x {
        assert o[y] == orders[y];
      }
    }
    forall y, i | y in o && 0 <= i < |o[y]| ensures (y, o[y][i]) in renamed' && renamed'[(y, o[y][i])] == IndexedId(y, i) {
      if y != x {
        assert o[y] == orders[y] && (y, o[y][i]) in renamed;
      }
    }
    StepKeys(dd, ks, k, renamed, renamed');
  }

  /** The renamed entries are those of the finished ids. */
  lemma StepKeys(dd: Doubles, ks: seq<String>, k: nat, renamed: map<(String, String), String>,
                 renamed': map<(String, String), String>)
    requires k < |ks|
    requires forall p :: p in renamed <==> p in dd && p.0 in ks[..k]
    requires forall p :: p in renamed' <==> p in renamed || (p in dd.Keys && p.0 == ks[k])
    ensures forall p :: p in renamed' <==> p in dd && p.0 in ks[..k + 1]
  {
    TakeSnoc(ks, k);
    forall p ensures p in renamed' <==> p in dd && p.0 in ks[..k + 1] {
      assert p.0 in ks[..k + 1] <==> p.0 in ks[..k] || p.0 == ks[k];
    }
  }

  lemma ResolvedDone(dd: Doubles, ks: seq<String>, orders: map<String, seq<String>>,
                     renamed: map<(String, String), String>)
    requires forall x :: x in orders <==> x in ks[..|ks|]
    requires forall p :: p in renamed <==> p in dd && p.0 in ks[..|ks|]
    requires KeyOrder(ks, IdsOf(dd))
    ensures orders.Keys == IdsOf(dd) && renamed.Keys == dd.Keys
  {
    assert ks[..|ks|] == ks;
    forall p | p in dd ensures p in renamed {
      assert p.0 in IdsOf(dd);
    }
  }


}
