# Cutting-stock core of the two Streamlit scripts

Two Streamlit scripts, `test.py` and `Cutting_Stock_Problem.py`, share one
core. They solve the same one-dimensional cutting-stock problem. Items are
`(name, length, count, over)`: a required number of pieces of a given length,
with an allowed surplus. The pieces are cut from raw bars of one length, and
every cut loses a kerf (`cut_margin`).

Both scripts run the same steps:

1. Enumerate every cutting pattern. A pattern is a count per item whose used
   length fits in a bar.
2. Give the solver one integer variable per pattern.
3. Read the solver's values back.
4. Tally production per item and classify it against demand.
5. Summarise the patterns used and draw each bar.

The copies differ in a few places:

- **Kerf.** `test.py` charges one kerf per piece (`test.py:97`).
  `Cutting_Stock_Problem.py` charges one per gap between pieces
  (`Cutting_Stock_Problem.py:59`).
- **Solver values.** `test.py` keeps one `{pattern, count}` entry per pattern
  used. `Cutting_Stock_Problem.py` lists the pattern once per bar and regroups
  that list by key.
- **Difference column.** `test.py` reports the signed difference;
  `Cutting_Stock_Problem.py` reports its absolute value.
- **Drawing.** The cursor is advanced differently in each script.

The model has five modules:

- `Patterns` (`patterns.dfy`)
  - items, patterns and the `KerfRule` (`PerPiece` for `test.py`, `PerGap`
    for `Cutting_Stock_Problem.py`);
  - `itertools.product` as a function (`Product`);
  - the enumerator as a method, proved equal to the function `Enumerate`, with
    soundness, completeness, bounds and order proved about it.
- `Solutions` (`solutions.dfy`)
  - the solver's status and values taken as inputs;
  - `test.py`'s extraction and `Cutting_Stock_Problem.py`'s expansion, as
    loops proved against `Keep` and `Expand`;
  - the demand constraints, as a predicate over the values.
- `Grouping` (`grouping.dfy`)
  - `Cutting_Stock_Problem.py`'s regrouping by key, in first-occurrence order;
  - the expand-then-group round trip.
- `Report` (`report.dfy`)
  - the name check and the per-item tallies;
  - the met/surplus/deficit classification and the difference rows;
  - the summary rows and descriptions;
  - the stable sort by count that orders `test.py`'s drawings.
- `Layout` (`layout.dfy`)
  - the cursor arithmetic of both drawing loops;
  - proofs that the drawn offcut equals the offcut in the title and the
    summary.

## Model

| member | source | states |
|---|---|---|
| Patterns.MaxCount | test.py:85 | for a positive length the bound is `raw // length`: `r*length <= raw < r*length + length`; for any other length it is 0 |
| Patterns.ProductMember | test.py:88-90 | `product(*ranges)` yields a tuple iff every coordinate `i` lies in `0..max_counts[i]` |
| Patterns.ProductIncreasing | test.py:90 | `product` yields its tuples in strictly increasing lexicographic order |
| Patterns.GeneratePatterns | test.py:83-105 | the loop over `product` returns exactly `Enumerate`: the non-empty combinations that fit, in product order, each with its used length under the kerf rule (per piece here; per gap in `Cutting_Stock_Problem.py:52-65`, which divides by every length and so needs positive lengths) |
| Patterns.EnumerateMember | test.py:90-103 | a pattern is returned iff its counts are within the bounds, it has at least one piece, its used length is the rule's, and that length is at most the raw length |
| Patterns.PatternSound | test.py:91-102 | every returned pattern has one count per item, all non-negative, at least one piece, `used_length = Σ count·length + kerf·Σ count` (`kerf·(Σ count − 1)` under `Cutting_Stock_Problem.py:56-63`), and `used_length <= raw_length` |
| Patterns.CountBounds | test.py:85-88 | no count exceeds `raw_length // length`; an item of non-positive length always gets count 0 |
| Patterns.EnumerateOrdered | test.py:90-103 | the returned count vectors are strictly increasing lexicographically, so no vector appears twice |
| Patterns.FitsWithinBounds | test.py:85-100 | with positive lengths and kerf ≥ 0, every combination that fits already lies within the per-item bounds |
| Patterns.EnumerateComplete | test.py:88-103 | with positive lengths and kerf ≥ 0, every non-empty non-negative combination that fits is returned, with its used length |
| Patterns.PerPieceCostsOneKerfMore | test.py:97 | for one combination, the per-piece used length is the per-gap one plus exactly one kerf |
| Patterns.PerPieceWithinPerGap | Cutting_Stock_Problem.py:59-61 | with positive lengths, as both input forms demand, and kerf ≥ 0, every pattern `test.py` generates is also generated by `Cutting_Stock_Problem.py`, with used length one kerf less |
| Solutions.ExtractSolution | test.py:124-131 | a non-optimal status gives no entries; an optimal one gives `Keep(patterns, values)` |
| Solutions.KeepSelects | test.py:125-130 | the kept entries are exactly the patterns with a positive value, in pattern order, each carrying that value as its count |
| Solutions.KeepMember | test.py:128-130 | every kept entry is some pattern with its own positive value |
| Solutions.ExpandSolution | Cutting_Stock_Problem.py:78-84 | a non-optimal status gives no bars; an optimal one gives each pattern repeated by its value, in pattern order (`Expand`) |
| Solutions.ExpandMember | Cutting_Stock_Problem.py:80-83 | every listed bar is a pattern whose value is positive |
| Solutions.StockBarCount | test.py:205 | the sum of the entries' counts, and the length of `Cutting_Stock_Problem.py`'s expanded list (line 143), are both the sum of the positive values, which is `Σ x_i` when the values are non-negative |
| Solutions.KeepProduces | test.py:117 | with non-negative values, summing `count · pattern[name]` over the kept entries gives the amount the solver's constraint speaks of |
| Solutions.ExpandProduces | Cutting_Stock_Problem.py:74-75 | with non-negative values, summing `pattern[name]` over the expanded bars gives the amount the solver's constraint speaks of |
| Grouping.GroupPatterns | Cutting_Stock_Problem.py:87-93 | `pattern_order` is the keys in first-occurrence order; `pattern_counts` holds exactly the keys met, each with its number of occurrences |
| Grouping.FirstOccurrencesSpec | Cutting_Stock_Problem.py:92-93 | the order lists each key once, lists every key and nothing else, and lists a key before any key first met later |
| Grouping.GroupCountsTotal | Cutting_Stock_Problem.py:89-91 | the grouped counts add up to the number of bars listed |
| Grouping.ExpandThenGroup | Cutting_Stock_Problem.py:78-93 | for patterns with distinct count vectors, grouping their expansion gives the keys of `test.py`'s kept entries in the same order, each counted as often as its value |
| Grouping.LastUsedIsUsed | Cutting_Stock_Problem.py:172 | the `used_length` a key ends with is that of some bar carrying the key |
| Grouping.SummaryMatchesExtraction | Cutting_Stock_Problem.py:168-172 | for distinct patterns, the summary dict lists, in order, exactly `test.py`'s entries, each with its count and its pattern's own used length |
| Report.NameSetSize | test.py:190 | `len(set(names)) <= len(names)`, with equality iff the names are pairwise distinct |
| Report.CheckNames | test.py:189-193 | the duplicate-name error is reported iff two names coincide; the no-items error iff the list is empty; the input is accepted iff it is non-empty with distinct names |
| Report.DescribeLists | Cutting_Stock_Problem.py:176 | a description lists exactly the items with a positive count, in item order, each with its count |
| Report.DescribeAsWrittenAddsUsedLength | test.py:232 | `test.py`'s description is the item description followed by `("used_length", N)` whenever N is positive |
| Report.UsedLengthAlwaysListed | test.py:232 | for every pattern `test.py` generates from positive lengths and kerf ≥ 0, N is positive, so the description ends with a pair that names no item |
| Report.TallyPerPiece | test.py:210-214 | the tally has exactly the item names as keys; each holds Σ over entries of `pattern[name] · count`, and the `used_length` key is skipped |
| Report.TallyPerGap | Cutting_Stock_Problem.py:146-149 | the tally has exactly the item names as keys; each holds Σ over the listed bars of `pattern[name]` |
| Report.Classify | test.py:220-221 | met iff `actual = required`, surplus iff `actual > required`, deficit iff `actual < required` |
| Report.DiffRowSigned | test.py:216-222 | the row carries the item's name, required and actual counts, the classification, and the signed difference `actual − required` |
| Report.DiffRowAbsolute | Cutting_Stock_Problem.py:151-164 | the same row with `abs(diff)`: the difference is non-negative and its sign is carried by the status |
| Report.PerPieceNeverDeficit | test.py:112-119 | any non-negative values meeting the demand constraints give each item a non-deficit row with `0 <= diff <= over` |
| Report.PerGapNeverDeficit | Cutting_Stock_Problem.py:70-75 | the same for the expanded list: no deficit, and `actual = required + diff` with `diff <= over` |
| Report.SummarizeSolution | test.py:229-239 | one row per entry, in order, with the entry's description, count and used length, and waste `raw_length − used_length` |
| Report.PerPieceSummarySound | test.py:236-238 | every entry extracted from generated patterns has a positive count and a non-negative waste |
| Report.SummaryByKey | Cutting_Stock_Problem.py:168-172 | the dict's keys, in insertion order, are the keys in first-occurrence order; each value counts the key's bars and holds the last bar's `used_length` |
| Report.SummarizeGroups | Cutting_Stock_Problem.py:174-182 | one row per key, in insertion order, with the key's description, bar count, last used length, and waste `raw_length − used_length` |
| Report.PerGapSummarySound | Cutting_Stock_Problem.py:175-182 | for bars listed from patterns generated from positive lengths, every row has a positive count and a non-negative waste, and the counts add up to the number of bars |
| Report.SortByCount | test.py:139 | the result is a permutation of the solution, ordered by count descending, and entries with equal counts keep their solution order (the sort is stable) |
| Layout.FindLength | test.py:159 | `next(length for items named name)`: none iff no item has the name, otherwise the length of the first such item |
| Layout.FindLengthDistinct | test.py:159 | with distinct names, every item's name finds that item's own length |
| Layout.LayoutPerPiece | test.py:157-173 | the cursor ends at `Advance`: for each pair whose name is found, `qty` times length plus kerf; the offcut is `raw_length − pos` |
| Layout.AdvancePermutation | test.py:155 | the cursor's end does not depend on the order of the pairs, so sorting them by name changes nothing |
| Layout.AdvanceDescribe | test.py:163-170 | when every name finds its length, laying out a description advances by `Σ count·length + kerf·Σ count` |
| Layout.LayoutMatchesTitle | test.py:155-181 | for a generated pattern with valid names, whatever the order of the pairs (the `used_length` pair included), the cursor ends at the pattern's used length; the drawn offcut equals the title's and is non-negative |
| Layout.ListPieces | Cutting_Stock_Problem.py:113-115 | the piece list is each item name repeated by its count, in item order |
| Layout.CutPieces | Cutting_Stock_Problem.py:116-122 | the cursor ends at the pieces' total length plus one kerf between each two pieces |
| Layout.LayoutPerGap | Cutting_Stock_Problem.py:103-124 | the recomputed `used_length`, the cursor's end and `leftover = raw_length − pos` are as defined for the key |
| Layout.PieceNamesMeasure | Cutting_Stock_Problem.py:113-115 | the piece list has `Σ count` entries and measures `Σ count·length` |
| Layout.SpanIsRecomputedUsed | Cutting_Stock_Problem.py:107-122 | for non-negative counts, the cursor ends exactly at the recomputed `used_length` |
| Layout.NamedDotIsDot | Cutting_Stock_Problem.py:108-110 | with distinct names, the name-keyed sum of count times length is the positional one |
| Layout.LayoutPerGapMatchesPattern | Cutting_Stock_Problem.py:106-124 | for a pattern generated from positive lengths with distinct names, the recomputed used length and the cursor's end both equal the pattern's `used_length`, and the offcut is non-negative |

## Left out

- The Streamlit user interface is not modelled:
  - forms, widgets and session state;
  - `uuid` item ids;
  - the `items_to_process` filter on empty names.
- The OR-Tools SCIP solver is not modelled. Its status and its integer values
  are inputs. `int(x.solution_value())` on a float is taken as already an
  integer. Optimality of the values is not stated. The constraints the solver
  is given are modelled as the predicate `Solutions.DemandConstraints`.
- Drawing is not modelled:
  - matplotlib calls, colours and fonts;
  - text placement at `pos + length / 2`, which uses float division;
  - the `> 0.1` and `> 0` tests that decide whether an offcut is drawn.
- The pandas tables are not modelled. This includes the `sort_values` at
  `test.py:246`, whose default sort is not guaranteed stable. The rows are
  modelled in list order.
- The `try/except` traceback display is not modelled.
- String formatting is not modelled:
  - a description `", ".join(f"{name}={qty}")` is modelled as the sequence of
    its `(name, qty)` pairs;
  - the titles are modelled by the numbers they show.
- The pattern dict is not modelled as a dict. A pattern is a count sequence
  indexed like the items, plus a separate used length.
  - Name lookups become positions. So the lemmas that relate a name to its
    position assume distinct names: `NoDuplicates`, and for `test.py`,
    `ValidNames`, which also excludes the name `used_length`.
  - `Cutting_Stock_Problem.py` does not check that names are distinct. With a
    repeated name its dicts would merge entries; that case is not modelled.
- The grouping key `tuple((name, pattern[name]) for name in item_names)` is
  modelled as the count vector alone. The names are the same for every key.
- Patterns.GeneratePatterns: under the per-gap rule it requires every length
  to be positive. `Cutting_Stock_Problem.py:53` divides by each length
  unguarded, and its input form only admits lengths of at least 1
  (`Cutting_Stock_Problem.py:40`).
- Layout.LayoutMatchesTitle: it states the result for any permutation of the
  described pairs rather than for the name order `sorted` gives
  (`test.py:155`). The cursor's end is the same for every order
  (`Layout.AdvancePermutation`).
- The `isinstance(qty, int)` filter of `test.py:155` and `test.py:232` is
  not modelled. Every value of a pattern dict is an int.
- The kerf rule follows each script: `test.py` charges one kerf per piece
  (`test.py:97`) and `Cutting_Stock_Problem.py` one per gap
  (`Cutting_Stock_Problem.py:59`). The model keeps both rules (`KerfRule`).
- Neither script optimises over several stock lengths or over cost; there is
  one raw length and the objective is the number of bars.

## Findings

| source | as written | input that shows it | evidently intended | confidence | as-written member | corrected member |
|---|---|---|---|---|---|---|
| test.py:232 | the description keeps every int value of the pattern dict that is `> 0`, and `used_length` is one of them, so the "pattern composition" column ends with `used_length=N` beside the separate used-length column | default items A1 (1402), A2 (2034), A3 (1300), raw length 6000, kerf 5: the pattern with four A1 pieces is described as `A1=4, used_length=5628` | list only the items with a positive count, as `Cutting_Stock_Problem.py:176` does | medium, not executed | Report.UsedLengthAlwaysListed | Report.DescribeLists |
