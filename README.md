# gvec-contingency-sort, modelled in Dafny

The program reads power-system contingency definitions and writes them out in
a sorted, filtered, de-duplicated form. A contingency definition is a block of
text:

- three header comment lines give its name, its dates, its submitter and its
  NERC and ERCOT categories;
- a `CONTINGENCY '<id>'` line follows;
- then come the statement lines, and the block ends with `END`.

The core is:

- `consort/contingency.py`: the `Contingency` record and the header grammar
  `big_regex`;
- `consort/tools.py`: the category count and the dump of a set of records;
- `main.py`: the stages that turn the input files into the output files.

The model has these modules, one per file:

- `Wrappers` (`wrappers.dfy`): `Option` and `Result`, and the error kinds the
  program can raise: `ValueError`, `KeyError` and `AttributeError`.
- `Text` (`text.dfy`): the Python string operations the source uses. These are
  `in`, `find`, `rfind`, `split`, `join`, `replace`, `strip`, right alignment
  in a format and integer formatting. Each is defined over `seq<char>` and
  proved against its meaning.
- `Sorting` (`sorting.dfy`): Python's string and tuple ordering, and a stable
  insertion sort by key.
- `Lines` (`lines.dfy`): the statement lines of a record (`lines`,
  `lines_str`) and the trimmed text (`trimmed_full_str`).
- `Header` (`header.dfy`): `big_regex` as a parser of record texts. The
  parser's inverse, `Render`, rebuilds the text from the nine groups and the
  text the groups leave out. The parser is proved sound and complete with
  respect to it.
- `Contingencies` (`contingency.dfy`): `class Contingency`, its NERC group
  table, `change_id` and the spreadsheet row.
- `Tools` (`tools.dfy`): `get_cat_numbers` and `dump_contingencies`, with the
  file modelled as the sequence of strings written to it.
- `Script` (`script.dfy`): `class Run`, which holds the reading-stage indexes
  `con_dict`, `con_set`, `double_dict` and the insertion order of
  `double_dict`. It models the reading loop and the renaming of records whose
  ids collide.
- `Filtering` (`filtering.dfy`): `class Filtered`, which holds
  `bus_filtered_con_set` and the six output groups. It models the bus list,
  the bus filter, the post-filter merge, the linking of records with equal
  statements, the bucketing into output files and the lookup-table add-ins.

Python sets of records are maps from the record's text to the record. A record
hashes and compares by its text (`consort/contingency.py:96-100`), so `add`
keeps the element already present and `remove` looks it up by text.
`KeyedByText` is the invariant that every entry sits under its own text.

Where the code and its description disagree, the model follows the code:

- A line of the body that holds only whitespace is not dropped.
  `if line:` tests the raw line, so the line becomes the pair `('', '')`.
- `change_id` tests `old_id in self.lines[i]`, which is tuple membership (a
  component equal to the old id). When that holds, `tuple.replace` raises
  `AttributeError`. `ChangeId` returns that error.
- `change_id` never changes `lines` or `lines_str`, because the result of
  `self.lines_str.replace(...)` is discarded. The model keeps both unchanged.
- The renaming of colliding ids (`main.py:108-114`) does not leave the ids
  unique. Within one collision group the new ids `id_0`, `id_1`, ... are
  different, but they can meet ids of other records. Two records read with
  the id `A` and one read with the id `A_0` end with two records holding
  `A_0`. When both `X` and `X_0` collide, the group `X` is renamed to
  `X_0`, `X_1`, ..., so `X_0` is still an id after the rename.
  `RenamedIdMayBeTaken` shows the first case on the model, and
  `RenamedGroupIdsDistinct` proves what does hold.

## Model

| member | source | states |
|---|---|---|
| Text.IndexOf | consort/contingency.py:45-67 | the first position where the pattern occurs, or None exactly when it occurs nowhere |
| Text.Contains | consort/contingency.py:45-67 | Python's `p in s`: true exactly when the pattern occurs at some position |
| Text.LastIndexOf | consort/contingency.py:10 | the last position where the pattern occurs (a greedy group), or None when there is none |
| Text.SplitOn | consort/contingency.py:34 | `str.split(sep)`: at least one piece, and no piece contains the separator |
| Text.JoinSplitOn | consort/contingency.py:34 | joining the pieces of `split(sep)` with `sep` gives back the text |
| Text.SplitOnJoin | consort/contingency.py:41 | splitting a join of separator-free pieces gives back the pieces |
| Text.ReplaceIsSplitJoin | consort/contingency.py:75-76 | `str.replace(p, q)` is split on `p` then join with `q` |
| Text.ReplaceUnchangedIff | consort/contingency.py:75 | `replace(p, q)` leaves a text unchanged exactly when `p` does not occur in it or `p == q` |
| Text.ReplaceBySelf | consort/contingency.py:75 | replacing a pattern by itself changes nothing |
| Text.FoundLength | consort/contingency.py:75 | replacing by a longer (shorter) text never shortens (lengthens) the text |
| Text.LStrip | consort/contingency.py:36 | `lstrip()`: removes exactly a whitespace prefix and leaves no leading whitespace |
| Text.RStrip | consort/contingency.py:88 | `rstrip()`: removes exactly a whitespace suffix and leaves no trailing whitespace |
| Text.StripParts | consort/contingency.py:36 | `strip()` keeps one slice of the text between whitespace runs and has no whitespace at either end |
| Text.SplitSpace | consort/contingency.py:10 | `\s*`: the text is its leading whitespace followed by its `lstrip()` |
| Text.LStripOf | consort/contingency.py:36 | whitespace followed by a text without leading whitespace strips to that text |
| Text.PadLeft | consort/tools.py:22 | `{num:>4}`: pads with spaces on the left to the width and keeps the text as its suffix |
| Text.NatToString | main.py:112 | the decimal digits of a number, with no leading zero except for 0 |
| Text.NatToStringRoundTrip | main.py:112 | the digits read back as the number |
| Text.NatToStringInjective | main.py:112 | different numbers format differently |
| Sorting.LexLessIrreflexive | main.py:109 | Python's string `<` is irreflexive |
| Sorting.LexLessTransitive | main.py:109 | Python's string `<` is transitive |
| Sorting.LexLessAsymmetric | main.py:109 | Python's string `<` is asymmetric |
| Sorting.LexLessTotal | main.py:109 | any two different strings are ordered |
| Sorting.KeyLessIrreflexive | main.py:109 | the tuple order on sort keys is irreflexive |
| Sorting.KeyLessTransitive | main.py:109 | the tuple order on sort keys is transitive |
| Sorting.KeyLessTotal | main.py:109 | any two different sort keys are ordered |
| Sorting.KeyLeTransitive | consort/tools.py:26 | the non-strict tuple order is transitive |
| Sorting.Insert | main.py:109 | inserting into a sorted list keeps it sorted and adds exactly that element |
| Sorting.InsertElements | main.py:109 | insertion adds exactly that element's payload to the payloads |
| Sorting.SortByKey | main.py:109 | `sorted(..., key=...)`: the result is sorted and a permutation of the input, payloads included |
| Sorting.InsertWithKey | consort/tools.py:26 | inserting after the equal keys: the elements with one key keep their order, and the inserted one comes last among them |
| Sorting.SortByKeyStable | consort/tools.py:26 | `sorted` is stable: the elements with any one key appear in the result in their input order |
| Sorting.SortByKeyStrict | main.py:109 | with distinct keys the sorted result is strictly increasing |
| Sorting.InsertStrict | main.py:109 | inserting a new key into a strictly sorted list keeps it strictly sorted |
| Lines.SplitCommentSpec | consort/contingency.py:37-39 | `re.split(r'\s*\/\*\s*', st, maxsplit=1)` padded with `''`: the statement holds no opener; without an opener the line is the statement and the comment is empty; otherwise the line is statement, whitespace, `/*`, whitespace, comment; the comment has no leading whitespace; neither part gains a line break |
| Lines.SplitCommentOf | consort/contingency.py:37 | a statement, whitespace, `/*`, whitespace and a comment split back into that statement and that comment |
| Lines.StatementPairFacts | consort/contingency.py:36-40 | a line's statement holds no `/*` and no line break |
| Lines.Pairs | consort/contingency.py:34-40 | one pair per non-empty line, never more pairs than lines |
| Lines.PairsAppend | consort/contingency.py:34-40 | the pairs of two runs of lines are the pairs of each, in order |
| Lines.PairsOfNonEmpty | consort/contingency.py:35-40 | with no empty line, the k-th pair is the statement pair of the k-th line |
| Lines.PairsOfEmpty | consort/contingency.py:35 | empty lines give no pairs |
| Lines.PairsSkipEmpty | consort/contingency.py:35 | an empty line between others adds nothing |
| Lines.PairsElement | consort/contingency.py:34-40 | every pair comes from some non-empty line |
| Lines.Statements | consort/contingency.py:41 | the first components of the pairs, in order |
| Lines.LinesStrHasNoComment | consort/contingency.py:41 | `lines_str` holds no `/*` |
| Lines.LinesStrSplits | consort/contingency.py:41 | splitting `lines_str` at line breaks gives back the statements |
| Lines.RStripBlank | consort/contingency.py:19 | `[ \t]+` before a comment: removes exactly a run of blanks at the end |
| Lines.FirstCut | consort/contingency.py:19 | the first place on a line where blanks are followed by `/*`, or none |
| Lines.TrimLine | consort/contingency.py:19 | a trimmed line is a prefix of the line and has no such place left |
| Lines.TrimLineUncut | consort/contingency.py:19 | a line without a comment after blanks is unchanged |
| Lines.TrimCommentsIdempotent | consort/contingency.py:19 | `trimmed_full_str`: trimming twice is trimming once |
| Lines.TrimCommentsUncut | consort/contingency.py:19 | a text without any comment after blanks is unchanged by trimming |
| Header.SplitLine | consort/contingency.py:7-11 | the text before the first line break and the text after it; None exactly when there is no line break |
| Header.SplitLineOf | consort/contingency.py:7-11 | a break-free line followed by a break splits back into that line |
| Header.ParseNameLine | consort/contingency.py:7 | `/* Contingency '(.*)'`: a parsed name renders back to the line |
| Header.ParseNameLineOf | consort/contingency.py:7 | every name line parses back to its name |
| Header.DateRun | consort/contingency.py:8 | `[\d/]*`: the longest prefix of digits and slashes |
| Header.ParseDateLine | consort/contingency.py:8 | the date line parses to two date runs that render back to the line |
| Header.ParseDateLineOf | consort/contingency.py:8 | every date line with date-only fields parses back to its fields |
| Header.ParseCatLine | consort/contingency.py:9 | the category line parses into submitter, NERC and ERCOT fields that render back to it; the greedy groups leave no separator in the later fields |
| Header.ParseCatLineOf | consort/contingency.py:9 | every category line whose later fields hold no separator parses back to its fields |
| Header.ParseDeclLine | consort/contingency.py:10 | `CONTINGENCY '(.+)'.*?(?:\/\* (.*))?`: the id runs to the last quote, and the optional comment follows the first `/* ` after it |
| Header.ParseDeclLineOf | consort/contingency.py:10 | every well-formed declaration line parses back to its id, trail and comment |
| Header.ParseDecl | consort/contingency.py:10 | the indent and declaration line, sound with respect to their rendering |
| Header.ParseDeclOf | consort/contingency.py:10 | every well-formed declaration parses back to itself |
| Header.FindEnd | consort/contingency.py:11 | the lazy body group: the first place a line can end where `\s*END\n` follows |
| Header.ParseBody | consort/contingency.py:11 | splits the rest into body, indent and what follows `END`, at the first place END can follow |
| Header.ParseBodyOf | consort/contingency.py:11 | a body that stops at the first END parses back to itself |
| Header.FirstEndUnique | consort/contingency.py:11 | the lazy group has only one place to stop |
| Header.ParseHead | consort/contingency.py:7-9 | the three header lines parse to well-formed fields that render back to them |
| Header.ParseHeadOf | consort/contingency.py:7-9 | every well-formed header parses back to itself |
| Header.Assemble | consort/contingency.py:6-13 | the match built from the parsed parts has those parts |
| Header.Parse | consort/contingency.py:21-23 | `re.match(big_regex, full_str)`: on success, a well-formed match that renders back to the text |
| Header.ParseRender | consort/contingency.py:6-13 | every well-formed match parses back from its rendering |
| Header.ParseFailsIff | consort/contingency.py:21-23 | the parse fails exactly when no well-formed match renders to the text |
| Header.RenderInjective | consort/contingency.py:6-13 | two well-formed matches with the same text are equal |
| Contingencies.FirstMatchAt | consort/contingency.py:44-71 | the first entry of the group table found in the category names the group |
| Contingencies.FirstMatchNone | consort/contingency.py:69-71 | with no table entry found, the group is `UNSPECIFIED` |
| Contingencies.GroupOfIsFirstMatch | consort/contingency.py:44-71 | the if/elif chain is a first-match lookup in the twelve-entry table |
| Contingencies.Contingency.constructor | consort/contingency.py:17-42 | every field is the matching regex group or is derived from it; `duplicates` starts empty |
| Contingencies.Create | consort/contingency.py:17-42 | `Contingency(full_str, source)`: `ValueError` exactly when the header grammar refuses the text; otherwise a fresh record with no duplicates whose text, trimmed text, source, name, dates, submitter, both categories, NERC group, id, id comment, line pairs and `lines_str` are the parsed groups and what is derived from them |
| Contingencies.Contingency.ChangeId | consort/contingency.py:73-81 | both texts have every old id replaced by the new one; `AttributeError` exactly when the old id is a component of some line pair, else the id becomes the new one |
| Contingencies.RenameChangesText | consort/contingency.py:75 | renaming a well-formed record to a different id changes its text |
| Contingencies.DuplicateEntries | consort/contingency.py:91-93 | one `id - nerc_cat` entry per duplicate, in order |
| Contingencies.DuplicateRefs | consort/contingency.py:91-93 | the id and category of each duplicate, in order |
| Contingencies.CsvLine | consort/contingency.py:83-94 | the row has exactly the seven column names |
| Contingencies.Contingency.CsvRow | consort/contingency.py:83-94 | the record's row has seven columns |
| Contingencies.TypeColumnSlashes | consort/contingency.py:86 | the type column is `NERC ` and the category with each `/` widened to ` / ` |
| Contingencies.TypeColumnNoSlash | consort/contingency.py:86 | a category without `/` appears unchanged after `NERC ` |
| Contingencies.DescriptionColumn | consort/contingency.py:88 | the DESCRIPTION column of a record's row is its `trimmed_full_str` with exactly the trailing whitespace removed |
| Contingencies.DuplicatesColumnSplits | consort/contingency.py:91-93 | the duplicates column splits back into its entries at line breaks |
| Tools.SepLineShape | consort/tools.py:8 | `SEP_LINE` is `/* `, 105 `=` and a line break |
| Tools.CatsOf | consort/tools.py:40-41 | the NERC category of each record, in order |
| Tools.CountPositive | consort/tools.py:40-44 | a category is counted at least once exactly when it occurs |
| Tools.RemoveFacts | consort/tools.py:40-44 | removing a category accounts for its count and keeps the others' counts |
| Tools.SumOfCounts | consort/tools.py:38-45 | the counts of a category table add up to the number of records |
| Tools.GetCatNumbers | consort/tools.py:38-45 | `get_cat_numbers`: categories in ascending order, each once, each with its number of occurrences (at least one), adding up to the number of records |
| Tools.TallyCats | consort/tools.py:39-44 | the counting loop: every category seen is counted with its number of occurrences, keys in first-seen order |
| Tools.SortTable | consort/tools.py:45 | `sorted(cat_numbers.items())`: the tally in ascending key order, with the same counts |
| Tools.TallyStep | consort/tools.py:41-44 | one step of the counting loop keeps the tally exact |
| Tools.CountsUnique | consort/tools.py:38-45 | there is only one ascending category table for a list of records |
| Tools.Views | consort/tools.py:26 | the sort-key fields and text of each record, in order |
| Tools.Keyed | consort/tools.py:12 | each view paired with its default key `(submitter, nerc_cat, id)` |
| Tools.SortedViews | consort/tools.py:26 | `sorted(contingencies, key=sort_func)` keeps the number of records |
| Tools.SortedViewsOrdered | consort/tools.py:12-26 | the sorted records are a permutation of the input in non-decreasing default key order |
| Tools.CategoryBlock | consort/tools.py:20-22 | one `/*\t\t{num:>4} - {cat}` line per table entry, in order |
| Tools.RecordsBlockSnoc | consort/tools.py:25-34 | each record adds a banner when its submitter differs from the previous one, then `SEP_LINE` and its text |
| Tools.DumpContingencies | consort/tools.py:11-36 | the written lines are the title, the category table of these records, the records in default key order with submitter banners, and the closing `SEP_LINE` and `END` |
| Tools.WriteDump | consort/tools.py:13-36 | the writes of the dump, in order, for a given table and order |
| Tools.WriteCategories | consort/tools.py:21-22 | the loop over the table writes one category line per entry |
| Tools.WriteRecords | consort/tools.py:25-34 | the loop over the sorted records writes each record's block |
| Tools.DumpEnds | consort/tools.py:35-36 | every dump ends with `SEP_LINE` and `END` |
| Tools.RecordsBlockLength | consort/tools.py:25-34 | the record block has two writes per record plus two per change of submitter |
| Tools.RecordsBlockHasText | consort/tools.py:33-34 | every record's text is written, right after a `SEP_LINE` |
| Tools.BannerIff | consort/tools.py:27-34 | a record gets a banner exactly when its submitter differs from the previous record's |
| Script.AddKeep | main.py:85 | `con_set.add`: the key is added and an element already present is kept |
| Script.Members | main.py:62 | the records filed under one id in the collision index |
| Script.AddDouble | main.py:83-84 | `double_dict[id].add`: the pair is added and an element already present is kept |
| Script.Run.constructor | main.py:60-62 | the three indexes start empty |
| Script.Run.Ingest | main.py:82-86 | one record filed: the set gains it unless its text is there; the id index points to it; on a new text with a known id, both records join the collision group of that id, and the id is appended to the group order if it is new; the four indexes after are `FileStep` of those before |
| Script.FileStep | main.py:82-86 | one record filed on index values: the set's keys gain its text and the id index maps its id to it |
| Script.IngestStep | main.py:82-86 | filing one record keeps every index invariant (texts as keys, ids, collision groups, group order) |
| Script.Run.Load | main.py:78-86 | the reading loop over one file: records for the texts up to the first one the grammar refuses (`ValueError`); the set gains exactly the texts read, keeps its old entries and files each new text under the first record read with it; the four indexes equal `Filed` of the old ones over the records read |
| Script.Run.FileAll | main.py:82-86 | filing the records in order: the set gains exactly their texts, keeps its old entries and files each new text under the first record read with it; the id index holds the old ids and the new ones, and each id points to the last record read with it; the four indexes equal `Filed` of the old ones over those records |
| Script.FiledFacts | main.py:78-86 | for the fold `Filed` of the reading loop from any indexes: the set's keys gain exactly the texts read, old entries stay, a text new to the set is filed under the first record read with it, the id index holds the old and new ids and each id maps to the last record read with it |
| Script.FiledFromEmpty | main.py:60-86 | from the empty indexes, when records with one text have one id: the set holds the texts read, the id index the ids read, and `(x, t)` is in the collision index exactly when `t` was read with `x` and some other text was also read with `x` |
| Script.Run.FileOne | main.py:82-86 | one turn of the filing loop is one `FileNext` step of the fold, and keeps the text the id index holds for each id |
| Script.ReadAll | main.py:78-79 | one fresh record per text, each with that text and no duplicates, up to the first text the grammar refuses |
| Script.Read | main.py:79 | `Contingency(m[0], p.name)`: `ValueError` exactly when the text is no record's rendering |
| Script.LastStep | main.py:86 | after filing one more record, each id still points to the last record read with it |
| Script.IndexedIdInjective | main.py:112 | `f"{id_}_{i}"` is different for different positions and is never the bare id |
| Script.SortGroup | main.py:109 | `sorted(set_, key=lambda x: (x.lines_str, x.full_str))`: the group's texts in strictly increasing key order |
| Script.SortedGroupUnique | main.py:109 | there is only one such order for a group |
| Script.SortedGroupEmpty | main.py:109 | the order is empty exactly when the group is |
| Script.SetToSeq | main.py:108 | iterating a set visits each element exactly once |
| Script.Run.ResolveCollisions | main.py:107-114 | every collision group is sorted and its i-th record renamed to `id_i`, in both texts, the set holding only records of the collision index or entries it had before under the same text, and each renamed record filed under its new text when that text was not in the set before and no other renamed record shares it; the records of one group end with different ids, none the old one; only the set and the id and texts of indexed records change; `AttributeError` only when a record's old id is a component of its line pairs, and success exactly when none is (given distinct texts across ids); otherwise `KeyError` |
| Script.Run.RenameGroup | main.py:109-114 | one group renamed in sorted order, record i getting `id_i`; `AttributeError` only for a record of the group whose old id is in its line pairs, and with distinct texts across ids no `KeyError`; on success no record of the group is in that case, and the rename invariant holds, so the set holds only records of the collision index or its old entries under their old texts |
| Script.Run.RenameEntry | main.py:111-114 | `KeyError` exactly when the old text is not in the set, and then the set is unchanged; `AttributeError` exactly when it is and the old id is a component of the record's line pairs, and then the set has only lost the old text; on success the set is the old one less the old text, plus the record under its new text unless that text is already there; only the set and that record change |
| Script.Run.RenamedFiled | main.py:111-114 | after the rename, a record whose new text was not in the set before and is no other renamed record's new text is the set's entry for that text |
| Script.Run.Present | main.py:111 | with distinct texts across ids, the text of a record not yet renamed is still in the set, so `remove` finds it |
| Script.IdsFromTexts | main.py:79-84 | the collision index files each record under the id its text declares, so two entries with one text have one id |
| Script.RenamedGroupIdsDistinct | main.py:108-114 | after the rename, two records of one group have different ids and none keeps the group's id |
| Script.Run.RenamedIdMayBeTaken | main.py:108-114 | an untouched record read with the id `x_0` keeps that id while the first record of group `x` is renamed to it: two different records share an id |
| Script.Run.RenamingStart | main.py:107 | before any renaming the rename invariant holds |
| Script.Run.RenamingDone | main.py:107-114 | when every group is done, each record in the collision index has its new id and both texts renamed |
| Script.RenameStateStep | main.py:111-114 | one remove, rename and add keeps the account of which texts are in the set |
| Script.KeyedByTextAdd | main.py:85 | adding a record under its own text keeps every entry under its own text |
| Script.KeyedByTextRemove | main.py:111 | removing a text keeps every entry under its own text and drops that record |
| Script.GroupNext | main.py:110-114 | renaming the next record of a group to `id_i` keeps the group's progress |
| Script.GroupProgressDone | main.py:110-114 | after the last record, every pair of the group is renamed to its position |
| Script.ResolvedStep | main.py:108-114 | finishing one id of the collision order extends the finished prefix by that id |
| Script.ResolvedDone | main.py:108 | after every id of the collision order, every id and every pair are done |
| Filtering.NonEmpty | main.py:44 | `[x for x in ... if x]`: the non-empty lines with their multiplicities, and no empty one |
| Filtering.BusesSpec | main.py:43-45 | `BUSES`: a sorted permutation of the file's non-empty lines, none holding a line break |
| Filtering.AnyBus | main.py:119 | `any(f"BUS {bus}" in x.lines_str for bus in BUSES)` |
| Filtering.VetoAnywhere | main.py:119 | a `P6.` anywhere in the category removes a record even when its bus is listed |
| Filtering.BusPrefixMatches | main.py:119 | a listed bus matches as a substring, so bus 1001 matches `BUS 10012`; no bus list matches nothing |
| Filtering.BusFilter | main.py:116-120 | the bus-filtered set: exactly the entries with a listed bus and no `P6.` category, unchanged |
| Filtering.Filtered.FilterByBus | main.py:116-120 | the loop over `con_set` builds exactly that filtered set, keyed by text |
| Filtering.BusFilterKeyed | main.py:116-120 | the filtered set keeps every entry under its own text |
| Filtering.BuildLineIndex | main.py:141-143 | the `defaultdict(list)` of records by `lines_str`: every record is listed under its statements, only there and once |
| Filtering.LineIndexKeys | main.py:141-143 | the index keys are exactly the statement texts of the records |
| Filtering.LineIndexAdd | main.py:149-152 | filing a record under new statements keeps the index exact |
| Filtering.AppendToAll | main.py:154-156 | each record in the list gets the new record appended to its duplicates |
| Filtering.Echoes | main.py:147-156 | the later post-filter records with the given statements, in order |
| Filtering.EchoesFrom | main.py:147-156 | every such record comes from that stretch of the post-filter records |
| Filtering.SeenKeysStep | main.py:149 | a post-filter record is added exactly when its statements were not seen before |
| Filtering.JoinedStep | main.py:149-152 | after one more record, the filtered set holds the old records and the new records whose statements were new |
| Filtering.MergedSpec | main.py:149-152 | the merged set gains exactly the texts of the records with new statements and keeps its old entries |
| Filtering.DupsStepOlds | main.py:154-156 | one more record appends it to the duplicates of the old records with its statements |
| Filtering.DupsStepMade | main.py:149-156 | one more record appends it to the duplicates of earlier added records with its statements |
| Filtering.FoldedKeys | main.py:141-152 | after i records the index keys are the old statements and those of the first i records |
| Filtering.FoldedStays | main.py:149 | a record is a duplicate exactly when its statements were already indexed |
| Filtering.FoldedAcc | main.py:149-152 | the set after the loop is the merged set |
| Filtering.FoldedPop | main.py:149-152 | the indexed records after i steps are the old ones and the added ones |
| Filtering.FoldedKeeps | main.py:149-152 | records once indexed stay indexed |
| Filtering.FoldedOlds | main.py:154-156 | each old record's duplicates gain the later post-filter records with its statements, in order |
| Filtering.FoldedMade | main.py:149-156 | each added record's duplicates are the later post-filter records with its statements; a duplicate record gets none |
| Filtering.Filtered.MergeOne | main.py:148-156 | one post-filter record: added under new statements, or appended to the duplicates of the records with its statements |
| Filtering.Filtered.MergeLoop | main.py:147-157 | the loop over the post-filter records computes the folded merge state |
| Filtering.Filtered.MergeRecords | main.py:141-157 | the set gains exactly the records with new statements; the old and new records' duplicates gain the later records with their statements |
| Filtering.Filtered.MergePostFilter | main.py:136-157 | the post-filter stage: read the records (`ValueError` at the first text the grammar refuses), then merge them as above |
| Filtering.Others | main.py:202 | `[c for c in ls if c != con]`: exactly the list's records with another text, in order, without repeats |
| Filtering.SisterOf | main.py:198-203 | another record is a sister of a record exactly when it has another text and the same statements |
| Filtering.SistersSymmetric | main.py:198-203 | no record is its own sister, and being sisters is symmetric |
| Filtering.ListsSet | main.py:202 | a repeat-free list with the members of a set holds each of them once |
| Filtering.LinksAreSisters | main.py:178-203 | the records linked to a record are exactly its sisters, each once |
| Filtering.Filtered.LinkGroup | main.py:201-203 | every record of one group gets the group's other records appended to its duplicates |
| Filtering.Filtered.LinkAll | main.py:200-203 | every record in a group of `dup_lines_dict` gets its group's other records; others are unchanged |
| Filtering.Filtered.LinkDuplicates | main.py:177-203 | each filtered record's duplicates gain exactly its sisters (the other records with the same statements), each once |
| Filtering.AnyCat | main.py:230 | `any(cat in con.nerc_cat for cat in cat_list)` |
| Filtering.BucketFrom | main.py:229-232 | the first category list from `g` on that matches, or none |
| Filtering.Bucket | main.py:229-232 | the first of the six category lists that matches the category, or none |
| Filtering.FindBucket | main.py:229-232 | the `zip` loop with `break` finds that first list |
| Filtering.BucketExamples | main.py:208-215 | `P2.1` goes to the second file, not to the fifth with `P2.2` |
| Filtering.GroupedAdd | main.py:228-232 | filing one more record keeps each output group exact |
| Filtering.Filtered.AssignGroups | main.py:226-232 | six groups; a record is in group g exactly when it is filtered and g is its first matching category list; no record twice |
| Filtering.AddedAllSpec | main.py:238-240 | the set gains exactly the add-in texts and keeps its old entries |
| Filtering.Filtered.AddIns | main.py:234-241 | the add-in records join the filtered set (an element already present is kept) but no output group; `ValueError` at the first text the grammar refuses |

## Left out

- Reading the configuration, the bus file and the input files, and the
  `glob` over the input directory (`main.py:15-45`, `main.py:69-74`). The
  input texts and the bus file's text are parameters.
- `simple_regex` (`main.py:53-58`). The texts it matches are given as a
  sequence, and each is handed to the header grammar. How the outer regex
  cuts a file into texts is not modelled.
- The leftover-text diagnostics, which write what `simple_regex` does not
  match to `filtered_con_text.txt` (`main.py:63-66`, `main.py:91-97`).
- Every `print` summary and the final `input` (`main.py:99-105`,
  `main.py:122-132`, `main.py:158-162`, `main.py:167-175`, `main.py:183-196`,
  `main.py:242-249`, `main.py:262-264`). These include the `max` over an
  empty dict at `main.py:193`, which raises `ValueError` when the summary
  flag is set and no statements repeat.
- The `print` for an unknown category (`consort/contingency.py:70`). Only the
  `UNSPECIFIED` group it sets is modelled.
- `os.mkdir` and the writing of the output files (`main.py:48-51`,
  `main.py:165`, `main.py:250-255`). The dump of each file is
  `DumpContingencies` over that file's records. The loop that writes one file
  per group is not modelled.
- `dump_2_excel` (`main.py:259-260`) is not part of this model. Only the row
  it writes per record is: `CsvRow`, after `make_csv_line_dict`.
- `time.asctime()` is a parameter of `DumpContingencies`.
- Tools.DumpContingencies: models only the default `sort_func`, because the
  program never passes another.
- `source_file` is stored but never read by the core, so no property is
  stated about it.
- Python's hash values are not modelled. A set is a map from the record's
  text to the record.
- Script.SetToSeq: the order in which a set is iterated is arbitrary. The
  contracts that depend on an iteration order are stated for every order,
  except where the program fixes one (`double_dict` keeps insertion order).
- Script.Run.Load: reads all the texts of a file before filing them, where
  the program creates and files one record at a time. Creating a record
  touches no index, so the indexes end the same. On a `ValueError`, the
  records before the failing text are still filed, as in the program.
- Filtering.Filtered.MergePostFilter: reads all post-filter texts before
  merging them, for the same reason as `Load`.
- Filtering.Filtered.LinkDuplicates: states the linked records as a multiset
  equal to the sister set, not their order. The order follows the iteration
  order of `bus_filtered_con_set`, which is arbitrary.
- Filtering.Filtered.AddIns: does not state where the add-ins land in the
  dump, because they are written only by `dump_2_excel`.
- Filtering.BucketExamples: checks only one category against the table. The
  general first-match property is `Bucket`'s contract.
- Script.Read: states the text, freshness and empty duplicates of each record
  but not the header fields that `Create` states. The same holds for
  Script.ReadAll. Carrying the parsed fields through the reading loop is
  beyond what the proof can afford.
- Script.Run.ResolveCollisions: rules out `KeyError` only when no text is
  filed under two ids (`UniqueTexts`). The program guarantees this because a
  record's id comes from its text (`IdsFromTexts`), but the reading stage's
  contracts do not carry that fact. Script.Run.RenameGroup is stated the same
  way.
- Script.FiledFromEmpty: assumes that records with one text have one id
  (`TextsFixIds`), for the same reason. `IdsFromTexts` states why the
  program guarantees it.
- Script.Run.ResolveCollisions: names the record under a new text only when
  that text was not in the set before the rename and no other renamed record
  shares it. Otherwise `add` keeps whichever record holds the text first, and
  the contract states only that it is a record of the collision index or the
  set's old entry.
- Contingencies.Contingency.ChangeId: follows the code, which raises
  `AttributeError` when an id is a whole component of a line pair. The fields
  `lines` and `lines_str` never change.
