# Search plugin: index build and query, modelled in Dafny

This project models the search plugin of Roam (`src/plugins/search_plugin/search.py`). The plugin does four things:

- It validates the project's `search` settings.
- It builds an SQLite FTS4 index. That index is a `featureinfo` table, mapping a synthetic row id to a layer name and a feature id, plus a full-text `search` table with one column per configured field.
- It rewrites the text typed in the search box into a full-text match expression, and shows the rows that come back.
- It provides the `rank` relevance function that it registers with SQLite.

The model has one module per piece of the plugin:

| file | module | what it models |
|---|---|---|
| `wrappers.dfy` | `Wrappers` | `Option` |
| `text.dfy` | `Text` | the Python string operations the plugin relies on: `sep.join`, `str.split()`, `str.strip(c)`, `s * n` |
| `rank.dfy` | `Rank` | `make_rank_func` / `rank` over the decoded `matchinfo` statistics, with arithmetic over `real` |
| `settings.dfy` | `Settings` | the configuration shape and `valid_search_settings` |
| `index_builder.dfy` | `IndexBuilder` | the parts of `build_index` listed below |
| `query.dfy` | `Query` | `search(text)`: the fuzzy rewrite, the SQL statement text, and how the result rows become list entries |

The `IndexBuilder` module covers these parts of `build_index`:

- `get_columns`, the schema of the `search` table;
- `get_data` and `get_features`, the records and their row ids;
- the insert loop, with its column list and `?` placeholders;
- the statements that drop and create the tables.

The layer collection the plugin queries through QGIS is a parameter: a sequence of layers, each with a name, its field names and its features. Each feature carries an id and an attribute map.

Dictionaries the plugin iterates over are sequences in iteration order. This applies to the `search` settings section, because row ids follow that order. Python sets, and the keys of the per-record data, are Dafny `set`s and `map`s. Where the source takes a set's iteration order, the model uses a method that may return the elements in any order, each exactly once.

In four places the code does something other than a reader might expect. The model follows the code:

- `rank` divides by the second value of each triple, `x[1]`. In the SQLite FTS `matchinfo` `x` format that is the number of hits in all rows. The per-column number of rows containing the term is the third value, `x[2]`, the one a tf-idf style score would divide by.
- The query has no `ORDER BY`. `rank` is registered but never used, so the rows come back in whatever order SQLite produces them.
- `valid_search_settings` only checks that each entry has a `columns` key. It does not check that the list is non-empty.
- Fuzzy mode joins the starred tokens with single spaces, which FTS reads as an implicit AND. No explicit `AND` is written.

## Model

| member | source | states |
|---|---|---|
| Rank.Triples | src/plugins/search_plugin/search.py:33-35 | `zip(it, it, it)` yields one triple per three values; a trailing partial group is dropped |
| Rank.TriplesShape | src/plugins/search_plugin/search.py:33-35 | triple `k` is made of the values at `3k`, `3k+1` and `3k+2` |
| Rank.RankFormula | src/plugins/search_plugin/search.py:25-38 | the score is the sum, over the first min(#triples, #weights) positions, of `m[2+3i] * w[i] / m[3+3i]`; a zero divisor contributes nothing |
| Rank.RankIgnoresPartialTriple | src/plugins/search_plugin/search.py:33-35 | appending fewer than three values to whole triples never changes the score |
| Rank.RankIgnoresTriplesBeyondWeights | src/plugins/search_plugin/search.py:34-35 | once every weight has a triple, extra statistics do not change the score |
| Rank.RankIgnoresHeader | src/plugins/search_plugin/search.py:33 | the first two values are never read |
| Rank.RankNonNegative | src/plugins/search_plugin/search.py:34-36 | non-negative weights give a non-negative score |
| Rank.DefaultRankUsesFirstTwoTriples | src/plugins/search_plugin/search.py:177 | with the weights `(1., .1, 0, 0)` the score is the first triple's ratio plus a tenth of the second's; later triples contribute nothing |
| Rank.RankExample | src/plugins/search_plugin/search.py:34-36 | for statistics `[0, 0, 5, 10, 2]` and weight 1 the score is 5/10 (the divisor is `x[1]`) |
| Settings.ValidSearchSettings | src/plugins/search_plugin/search.py:128-135 | accepted exactly when the `search` key exists and every entry has `columns`; if so it returns that section unchanged, otherwise `(False, {})`, so one bad entry rejects the whole configuration |
| IndexBuilder.LayerByName | src/plugins/search_plugin/search.py:79-82 | a found layer is in the collection and has that name; the lookup fails exactly when no layer has that name |
| IndexBuilder.SelectedLayers | src/plugins/search_plugin/search.py:71-82 | every selected layer is in the collection; `_all` selects every layer, in enumeration order; a name selects at most one layer, with that name, and none exactly when no layer has that name |
| IndexBuilder.Quote | src/plugins/search_plugin/search.py:62 | a quoted column is the field name with one character added on each side |
| IndexBuilder.QuoteDelimits | src/plugins/search_plugin/search.py:62 | the added characters are double quotes, and two fields give the same column exactly when they are the same field |
| IndexBuilder.GetColumns | src/plugins/search_plugin/search.py:58-63 | the schema is the union, over all entries, of their quoted `columns` |
| IndexBuilder.RenderFeature | src/plugins/search_plugin/search.py:97-100 | the loop over the shared fields builds the map from each quoted field to `"field: value"` |
| IndexBuilder.RenderKeys | src/plugins/search_plugin/search.py:97-100 | on a layer whose features carry every field, the data keys are exactly the quoted shared fields |
| IndexBuilder.FeatureRecordsAt | src/plugins/search_plugin/search.py:96-105 | one record per feature, in order, numbered from `rowid + 1` |
| IndexBuilder.GetData | src/plugins/search_plugin/search.py:87-105 | `get_data` yields exactly the records of the layer specification below |
| IndexBuilder.LayerRecordsContents | src/plugins/search_plugin/search.py:87-105 | nothing when the layer shares no field with the entry's columns; otherwise one record per feature with id `rowid + k + 1`, the layer name, the feature id, keys equal to the quoted shared fields and each value `"field: value"` |
| IndexBuilder.LayerRecordsWithinColumns | src/plugins/search_plugin/search.py:91-100 | every record's data is non-empty and its keys are quoted columns of the entry |
| IndexBuilder.PerLayerNumbers | src/plugins/search_plugin/search.py:101-105 | `get_data` from counter `r` numbers its records `r + 1`, `r + 2`, ... |
| IndexBuilder.PerEntryNumbers | src/plugins/search_plugin/search.py:70-85 | one entry's records, from counter `r`, are numbered `r + 1`, `r + 2`, ... |
| IndexBuilder.AllLayersRows | src/plugins/search_plugin/search.py:71-77 | the `_all` branch runs `get_data` over every layer, carrying the counter from one layer to the next |
| IndexBuilder.EntryRows | src/plugins/search_plugin/search.py:70-85 | one pass over an entry gives that entry's records and leaves the counter at `rowid + #records` |
| IndexBuilder.GetFeatures | src/plugins/search_plugin/search.py:68-85 | the rows `get_features` yields are the records of every entry in order, with one counter starting at 0 |
| IndexBuilder.ConfigRecordIds | src/plugins/search_plugin/search.py:69-85 | the `k`-th record of a run from counter `rowid` has id `rowid + k + 1`, across entries and layers |
| IndexBuilder.BuildRecordIdsIncrease | src/plugins/search_plugin/search.py:69-104 | over a build the ids are 1..N in yield order, so they are distinct and strictly increasing |
| IndexBuilder.EntryRecordsWithinColumns | src/plugins/search_plugin/search.py:74-77 | every record of an entry has non-empty data whose keys are that entry's quoted columns |
| IndexBuilder.RecordsWithinSchema | src/plugins/search_plugin/search.py:58-100 | every record has non-empty data whose keys are columns of the `search` table |
| IndexBuilder.MissingLayerSkipped | src/plugins/search_plugin/search.py:78-82 | an entry naming a missing layer contributes nothing: removing it leaves every other record and id unchanged |
| IndexBuilder.Enumerate | src/plugins/search_plugin/search.py:65 | iterating a set lists each element exactly once |
| IndexBuilder.RepeatMarks | src/plugins/search_plugin/search.py:113 | `"?," * n` is `n` marks joined by commas, plus one trailing comma |
| IndexBuilder.PlaceholdersAreMarks | src/plugins/search_plugin/search.py:113-114 | after stripping commas, the placeholders are exactly `n` `?` marks joined by commas, and empty for `n = 0` |
| IndexBuilder.InsertRow | src/plugins/search_plugin/search.py:109-116 | one `featureinfo` insert with the row's id, layer and feature id, then one `search` insert with the same docid, each key once, each value bound to its own column, and one `?` per value |
| IndexBuilder.InsertRows | src/plugins/search_plugin/search.py:108-116 | one such pair of inserts per yielded row, in order |
| IndexBuilder.BuildIndex | src/plugins/search_plugin/search.py:50-116 | the setup statements in order, then a `search` table whose columns are exactly the schema, each once; the rows are the `get_features` records with ids 1..N and data within the schema; every row is inserted |
| Text.Repeat | src/plugins/search_plugin/search.py:113 | `s * n` has `n * len(s)` characters |
| Text.RepeatIsCopies | src/plugins/search_plugin/search.py:113 | `s * n` is `n` copies of `s`, one after the other |
| Text.StripLeading | src/plugins/search_plugin/search.py:114 | the result is a suffix; every character removed is the stripped one, and the result does not start with it |
| Text.StripTrailing | src/plugins/search_plugin/search.py:114 | the result is a prefix; every character removed is the stripped one, and the result does not end with it |
| Text.SplitYieldsTokens | src/plugins/search_plugin/search.py:229 | `split()` yields only non-empty pieces without whitespace |
| Text.SplitKeepsNonSpace | src/plugins/search_plugin/search.py:229 | the pieces of `split()`, concatenated, are the input with all whitespace removed |
| Text.SplitJoinRoundTrip | src/plugins/search_plugin/search.py:229 | joining tokens with single spaces and splitting again gives the same tokens back |
| Query.MatchExpression | src/plugins/search_plugin/search.py:228-231 | without fuzzy mode the text is the match expression unchanged |
| Query.JoinStarred | src/plugins/search_plugin/search.py:229 | joining with `"* "` and appending `*` is the same as starring each token and joining with spaces |
| Query.FuzzyRewriteShape | src/plugins/search_plugin/search.py:229 | fuzzy mode gives `*` when there are no tokens, and otherwise each token with `*` appended, joined by single spaces |
| Query.FuzzyRewriteTokens | src/plugins/search_plugin/search.py:229 | the tokens of the rewritten expression are the original tokens, each with `*` appended |
| Query.FuzzyTwoTokens | src/plugins/search_plugin/search.py:229 | two tokens separated by a space become `a* b*` |
| Query.FuzzyExample | src/plugins/search_plugin/search.py:229 | `"main str"` becomes `"main* str*"` |
| Query.BlankFuzzyIsStar | src/plugins/search_plugin/search.py:229 | whitespace-only text becomes the bare `*` |
| Query.ApostropheBreaksQuery | src/plugins/search_plugin/search.py:232-235 | as written, for the text `o'brien` the match literal SQLite reads is `o`, and `brien' LIMIT 100` is left over as SQL |
| Query.SearchBreaksOnApostrophe | src/plugins/search_plugin/search.py:228-235 | `search("o'brien")` as written, with fuzzy mode off, issues a statement whose match literal SQLite reads as `o`, leaving `brien' LIMIT 100` as SQL |
| Query.EscapeQuoteFree | src/plugins/search_plugin/search.py:235 | escaping leaves text without a quote unchanged |
| Query.QuerySqlRoundTripWithoutQuotes | src/plugins/search_plugin/search.py:232-235 | as written, a match expression without a quote reaches SQLite intact: the literal it reads is that expression, followed by ` LIMIT 100` |
| Query.ReadLength | src/plugins/search_plugin/search.py:235 | a literal that is read, its closing quote and what follows it fit within the input |
| Query.QuoteBreaks | src/plugins/search_plugin/search.py:235 | text containing a quote, placed before a closing quote, never reads back as itself |
| Query.QuerySqlBreaksWithQuotes | src/plugins/search_plugin/search.py:232-235 | as written, a match expression containing a quote never reaches SQLite intact, whatever the text |
| Query.ReadEscaped | src/plugins/search_plugin/search.py:235 | an escaped text followed by a closing quote reads back as that text |
| Query.EscapedQueryRoundTrip | src/plugins/search_plugin/search.py:232-235 | with quotes doubled, the match literal SQLite reads is exactly the match expression, followed by ` LIMIT 100`, for every text |
| Query.Search | src/plugins/search_plugin/search.py:225-235 | as written: no statement exactly when the text is empty (the early return); otherwise a statement that starts with the `SELECT … match '` head, whose match literal is the match expression if and only if that expression has no quote |
| Query.SearchCorrected | src/plugins/search_plugin/search.py:225-235 | with the quotes escaped: no statement exactly when the text is empty, otherwise the match literal is the match expression for every text |
| Query.Flatten | src/plugins/search_plugin/search.py:238 | same length; every newline becomes a space and every other character is kept |
| Query.FlattenRemovesNewlines | src/plugins/search_plugin/search.py:238 | a flattened snippet has no newline, and flattening it again changes nothing |
| Query.ShowResults | src/plugins/search_plugin/search.py:236-247 | one entry per row, in order, whose text is the layer, a newline, a space and the flattened snippet, carrying `(layer, featureid, snippet)`; with no rows, a single disabled `No Results` entry |
| Query.SearchView | src/plugins/search_plugin/search.py:220-247 | the statement is `Search`'s. For empty text the list is left cleared and disabled, with no entry. When SQLite rejects the statement and `execute` raises, the display loop never runs and the list stays cleared and disabled, with no entry. Otherwise the rows are shown as `ShowResults` shows them, with `No Results` only when the query ran and returned nothing |

## Left out

- Qt and QGIS plumbing is not modelled: widgets, signals, the worker thread, `jump_to`, the event filter and the "building search index..." / "Invalid search config found" messages.
- SQLite execution is not modelled. Statements are values, and the rows a query returns are an input to `ShowResults`. FTS4 matching, `snippet`, `LIMIT 100` and the order of the rows are SQLite's.
- The decoding of the `matchinfo` blob with `struct.unpack` (native byte order, 32-bit unsigned) is not modelled. `rank` receives the decoded naturals, and arithmetic is over `real` instead of floating point. Under Python 3 `len(matchinfo)/4` is a float, so the repeated format string would fail. That depends on the interpreter version and belongs to the decoding step left out here.
- Filesystem paths, `APPDATA`, `os.makedirs`, timing and `print`/logging are left out. So is the build duration that `indexBuilt` emits.
- `roam.api.utils.layers` and `roam.api.utils.layer_by_name` are not part of this model. The layer collection is a parameter; it is taken to contain only vector layers, and the lookup by name returns the first layer with that name, with `IndexError` as `None`.
- Attribute values are strings: `str(feature[field])` of QGIS values is not modelled.
- IndexBuilder.Render: defined for every feature, keeping only the fields the feature carries. The records lemmas require every feature to carry every field of its layer, as QGIS guarantees, so the `if not data: continue` branch of `get_data` never fires there.
- IndexBuilder.EntryColumns: gives no columns for an entry without a `columns` key, which `get_data` would reject with `KeyError`. The build only runs on settings that passed `valid_search_settings`, so that case does not occur.
- Settings.ValidSearchSettings: the `search` section is a sequence of entries, and each entry's options are a map from option name to a list of strings. So the model cannot represent the shapes `valid_search_settings` does not catch, because it only catches `KeyError`. A `search` value that is not a mapping, such as `None`, raises an uncaught `AttributeError` at `settings.values()`. An entry that is not a mapping, such as a list, raises an uncaught `TypeError` at `layerconfig['columns']`. In neither case does the function return `(False, {})`. A `columns` value that is not a list is accepted. A string is iterated character by character, both in `get_columns` and in `set(configfields)`: `"name"` gives the columns `"n"`, `"a"`, `"m"`, `"e"` and raises nothing. A value that cannot be iterated, such as `None` or a number, raises an uncaught `TypeError` in `get_columns`.
- The order in which the columns of the `search` table, and the keys of each record, are listed is not modelled. Only that each appears exactly once is stated, because Python set and dict order is not modelled.

## Findings

| source | as written | input that shows it | evidently intended | confidence | as-written member | corrected member |
|---|---|---|---|---|---|---|
| src/plugins/search_plugin/search.py:232-235 | the match expression is formatted into a single-quoted SQL literal without escaping | search text `o'brien` (fuzzy off): the literal ends after `o`, and `brien' LIMIT 100` is parsed as SQL, which is a syntax error | the literal holds exactly the match expression, with quotes doubled or the value bound as a parameter | not executed | Query.SearchBreaksOnApostrophe | Query.SearchCorrected |
