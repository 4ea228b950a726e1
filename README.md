# occumend-ai in Dafny

occumend-ai recommends occupations from a 48-question Holland (RIASEC) interest
survey. The browser walks the user through six steps of eight questions. When the
last step is done it groups the ratings by category and posts them to the Flask
route `/recommend`. There the user's six means are compared with the interest
profile of every O*NET occupation, and the twenty best matches come back with their
cluster name and their top knowledge, skills and abilities. A `/chat` route passes
a question and a profile summary to a language model behind a chain of guards. An
offline script turns the O*NET occupation descriptions into chunked, numbered
knowledge-base records for retrieval.

This project models that logic and proves what it promises. It has one module per
source file, plus four shared ones:

- `Wrappers` (`wrappers.dfy`): `Option`.
- `Numbers` (`numbers.dfy`): Python's `min` and `max` on integers.
- `Riasec` (`riasec.dfy`): the six dimensions, their letters `RIASEC`, the score
  columns, and six-value vectors.
- `PyText` (`py_text.dfy`): the Python string built-ins the code relies on.
  `str.isspace` is one predicate. `split()`, `strip()`, `lstrip()`, `rstrip()`,
  `" ".join`, `re.sub(r"\s+", " ", ·)`, `str(n)` and `int(·)` are defined on it.
- `OnetKnowledgeBase` (`onet_knowledge_base.dfy`) models `scripts/onet_knowledge_base.py`:
  - `clean_text` is a function;
  - `chunk_text` is a method with the source's `while` loop, proved against a
    recursive specification;
  - the record loop of `build_knowledge_base` is a method that appends records.
- `DataProcessing` (`data_processing.dfy`) models `app/data_processing.py`:
  - one scale filter for both long-format tables (the "OI" rows of the
    interests table, the "IM" rows of a competency table), the pivot (mean per
    cell, missing cells as `None`), the element-id rename, the inner join and `fillna(0)`;
  - `get_cluster_name` with pandas' keep-first `nlargest`, and the cluster-to-name map;
  - `_get_top_elements` over any order pandas' (unstable) descending sort may produce,
    with its three outcomes: a missing file gives `{}`, any other read error
    escapes to the load, and readable rows give the top-five map;
  - the success and failure outcomes of `load_and_prepare_data`.
- `Routes` (`routes.dfy`) models `app/routes.py`:
  - `create_app`'s data step is the method `CreateApp`. It builds the `App`
    from the result of `load_and_prepare_data`, so the app satisfies `Valid`.
  - `recommend` is a method of class `App`, which owns the corpus as an array. The
    method overwrites the corpus' similarity column in place, ranks the corpus
    with a top-k selection loop, and assembles the rows in a loop.
    The class invariant `Valid` asks a loaded corpus to have its six score
    columns and at least one row per KMeans cluster, as a successful load
    guarantees; KMeans raises on fewer rows, which fails the load.
  - `chat` is a function of the guard chain.
- `SurveyScript` (`survey_script.dfy`) models `app/static/js/script.js`:
  - the question table;
  - class `Survey`, holding `currentStep` and `userAnswers`, with `validateStep`,
    `goToNext`, `goToBack` and the change handler;
  - the grouping loop;
  - the per-category mean;
  - the end-to-end fact that a completed survey yields a defined profile in 1..5
    for every dimension.

The model takes these as inputs:

- The KMeans result: one label per row and the centroids.
- The similarity measure, as a function `(Vector, Vector) -> real`.
- The occupation and interest files, as `Option<seq<row>>`, with `None` meaning
  that reading them raises (missing file or any other error; both fail the load).
- The knowledge, skills and abilities files, as `Missing`, `Unreadable` (any other
  read error, or a missing column) or their `Rows`.
- The task and work-context texts, as maps from occupation code.
- The presence of the LLM client and of the collection, as booleans.
- The model's outcome on a question, as a function returning an answer, a
  `ValueError` or another exception.

## Model

| member | source | states |
|---|---|---|
| Numbers.Min | scripts/onet_knowledge_base.py:38 | `min(a, b)`: no larger than either argument and equal to one of them |
| Numbers.Max | scripts/onet_knowledge_base.py:46 | `max(a, b)`: no smaller than either argument and equal to one of them |
| PyText.IsSpace | scripts/onet_knowledge_base.py:21-29 | definition of the characters `str.isspace` and `\s` match, without a contract of its own; every text lemma is stated over it |
| PyText.Strip | scripts/onet_knowledge_base.py:27 | definition of `str.strip()` as `rstrip` after `lstrip`, without a contract of its own; stated by `StripLeft`, `StripRight` and `StripOfClean` |
| PyText.Words | scripts/onet_knowledge_base.py:29 | definition of `str.split()` as the maximal whitespace-free pieces, without a contract of its own; stated by `WordsAreWords` and `WordsOfJoin` |
| PyText.Join | scripts/onet_knowledge_base.py:39 | definition of `" ".join`, without a contract of its own; stated by `JoinEnds`, `WordsOfJoin` and `JoinIsClean` |
| PyText.Collapse | scripts/onet_knowledge_base.py:21 | definition of `re.sub(r"\s+", " ", s)`, each whitespace run becoming one space, without a contract of its own; stated by `CleanIsJoinOfWords` |
| PyText.Decimal | scripts/onet_knowledge_base.py:117 | `str(n)` is a non-empty string of decimal digits |
| PyText.ParseDecimal | app/static/js/script.js:149 | definition of `parseInt` on digit strings, without a contract of its own; stated by `ParseDecimalOfDecimal` and `RatingValue` |
| PyText.StripLeft | scripts/onet_knowledge_base.py:27 | `lstrip` result is no longer than its input and does not start with whitespace |
| PyText.StripLeftDropsSpace | scripts/onet_knowledge_base.py:27 | `lstrip` removes exactly a whitespace prefix and keeps the rest as a suffix |
| PyText.StripRight | scripts/onet_knowledge_base.py:22 | `rstrip` keeps a prefix, everything it drops is whitespace, and the result does not end in whitespace |
| PyText.WordEnd | scripts/onet_knowledge_base.py:29 | the longest whitespace-free prefix, followed by whitespace when it is not the whole string |
| PyText.WordsAreWords | scripts/onet_knowledge_base.py:29 | every piece `split()` returns is non-empty and whitespace-free |
| PyText.JoinEnds | scripts/onet_knowledge_base.py:39 | a non-empty `" ".join` of words starts with the first word's first character and has no whitespace at either end |
| PyText.WordsOfJoin | scripts/onet_knowledge_base.py:29-39 | splitting the `" ".join` of a list of words gives the list back |
| PyText.JoinIsClean | scripts/onet_knowledge_base.py:21-22 | a join of words has no whitespace at its ends and no whitespace other than single spaces |
| PyText.CleanIsJoinOfWords | scripts/onet_knowledge_base.py:21-22 | `re.sub(r"\s+", " ", s).strip()` equals `" ".join(s.split())` for every string |
| PyText.ParseDecimalOfDecimal | app/static/js/script.js:149 | parsing the decimal rendering of a number gives the number back |
| PyText.DecimalInjective | scripts/onet_knowledge_base.py:117 | distinct record numbers render as distinct digit strings |
| Riasec.FeatureLetters | app/data_processing.py:32-42 | each score column of `features` begins with its dimension's letter, which `top_three[i][0]` reads, and each letter's position in `RIASEC` is its dimension |
| Riasec.LetterIndex | app/data_processing.py:42 | a character's position in `RIASEC`; 6 exactly for characters that are not dimension letters |
| OnetKnowledgeBase.CleanText | scripts/onet_knowledge_base.py:17-22 | a non-string gives ""; a string gives the single-space join of its words; the result always has the clean shape (no edge whitespace, only single spaces) |
| OnetKnowledgeBase.CleanTextIdempotent | scripts/onet_knowledge_base.py:21-22 | cleaning an already cleaned text changes nothing |
| OnetKnowledgeBase.PySlice | scripts/onet_knowledge_base.py:39 | `ws[start:end]` is the plain slice within bounds, empty when `end <= start`, cut at the last word when `end` is past it, and counted from the back when `end` is negative |
| OnetKnowledgeBase.WindowEnd | scripts/onet_knowledge_base.py:38 | definition of `min(start + max_words, total_words)`, without a contract of its own; stated by `StartsSteps` and `ChunksOverlap` |
| OnetKnowledgeBase.NextStart | scripts/onet_knowledge_base.py:46-47 | the next window start is strictly after the current one, whatever `max_words` and `overlap` are |
| OnetKnowledgeBase.Starts | scripts/onet_knowledge_base.py:34-47 | definition of the values `start` takes in the loop, without a contract of its own; stated by `StartsIncrease`, `StartsSteps` and `ChunksCoverWords` |
| OnetKnowledgeBase.Kept | scripts/onet_knowledge_base.py:40-41 | definition of `if chunk: chunks.append(chunk)`, without a contract of its own; stated by `WindowKept` |
| OnetKnowledgeBase.ChunksFrom | scripts/onet_knowledge_base.py:34-47 | definition of the chunks the loop appends from a start on, without a contract of its own; stated by `ChunksFromStep`, `ChunksAreWindows` and `WindowsOfWords` |
| OnetKnowledgeBase.ChunkTextSpec | scripts/onet_knowledge_base.py:25-48 | definition of `chunk_text`'s result, without a contract of its own; stated by `ChunkText`, `ChunkWindows`, `ChunksCoverWords` and `ChunkTextNonEmpty` |
| OnetKnowledgeBase.ChunkText | scripts/onet_knowledge_base.py:25-48 | the `while` loop (defaults `max_words=200`, `overlap=40`) returns exactly the windowed chunks of the text's words, and `[]` for a non-string or a text without words |
| OnetKnowledgeBase.ChunksFromStep | scripts/onet_knowledge_base.py:37-47 | one loop turn appends the kept chunk of the current window and continues at the next start, or stops when the window reaches the end |
| OnetKnowledgeBase.BlankIffNoWords | scripts/onet_knowledge_base.py:27-31 | `not text.strip()` holds exactly when `text.split()` is empty, so the second guard is never reached for a non-blank text |
| OnetKnowledgeBase.StartsIncrease | scripts/onet_knowledge_base.py:34-47 | loop starts begin at the given start, stay below the word count and strictly increase, so the loop ends even when `overlap >= max_words` |
| OnetKnowledgeBase.StartsSteps | scripts/onet_knowledge_base.py:38-47 | every window but the last ends before the final word and is followed at `max(end - overlap, start + 1)`; with `max_words >= 1` and `overlap >= 0` the last window reaches the final word |
| OnetKnowledgeBase.WindowKept | scripts/onet_knowledge_base.py:38-41 | a visited window is a non-empty slice of words, and its stripped join is kept as one chunk |
| OnetKnowledgeBase.ChunksAreWindows | scripts/onet_knowledge_base.py:37-47 | with `max_words >= 1` there is one chunk per visited start, and chunk `i` is the join of the window at start `i` |
| OnetKnowledgeBase.WindowsCons | scripts/onet_knowledge_base.py:37-47 | putting one more window and its join in front keeps chunk `i` the join of window `i` |
| OnetKnowledgeBase.StripOfClean | scripts/onet_knowledge_base.py:22 | stripping a clean string changes nothing |
| OnetKnowledgeBase.ChunkWindows | scripts/onet_knowledge_base.py:29-41 | with `max_words >= 1` there is one chunk per visited start; chunk `i` is the `" ".join` of the non-empty word window beginning at start `i`, splits back into that window, and has between 1 and `max_words` words |
| OnetKnowledgeBase.WindowsOfWords | scripts/onet_knowledge_base.py:37-41 | for a list of words, chunk `i` is the join of the window the loop visited at its `i`-th start, and splits back into that window |
| OnetKnowledgeBase.WindowWords | scripts/onet_knowledge_base.py:39 | joining a slice of words and splitting it again gives the slice |
| OnetKnowledgeBase.ChunksCoverWords | scripts/onet_knowledge_base.py:34-44 | with `max_words >= 1` and `overlap >= 0` the first window starts at word 0, the last ends at the final word, and every word lies in some window |
| OnetKnowledgeBase.ChunksOverlap | scripts/onet_knowledge_base.py:38-46 | with `0 <= overlap < max_words` every window but the last has `max_words` words, and the next begins `overlap` words before its end |
| OnetKnowledgeBase.ChunkTextNonEmpty | scripts/onet_knowledge_base.py:27-41 | a text with at least one word yields at least one chunk |
| OnetKnowledgeBase.Entries | scripts/onet_knowledge_base.py:92-112 | one entry per occupation row, in row order: entry `k` holds occupation `k`'s code, cleaned title and chunks |
| OnetKnowledgeBase.CombinedText | scripts/onet_knowledge_base.py:103-108 | definition of the occupation document, without a contract of its own; `OccupationHasRecords` shows it always has words |
| OnetKnowledgeBase.OccupationText | scripts/onet_knowledge_base.py:93-108 | definition of the occupation document from the cleaned title and description and the task and context texts with their defaults, without a contract of its own; stated by `MissingEntriesUseDefaults` and `OccupationHasRecords` |
| OnetKnowledgeBase.OccupationChunks | scripts/onet_knowledge_base.py:110-112 | definition of the 200/50 chunks with the whole-document fallback, without a contract of its own; stated by `OccupationHasRecords` |
| OnetKnowledgeBase.DocId | scripts/onet_knowledge_base.py:117 | definition of `f"{code}#{idx}"`, without a contract of its own; stated by `HashAfterCode` and `DocIdInjective` |
| OnetKnowledgeBase.ChunkTitle | scripts/onet_knowledge_base.py:118 | definition of `f"{title} (Chunk {idx})"`, without a contract of its own; stated by `NumberedRecordsShape` |
| OnetKnowledgeBase.NumberedRecords | scripts/onet_knowledge_base.py:114-121 | definition of the records of one occupation, without a contract of its own; stated by `NumberedRecordsShape` and `NumberedRecordsSnoc` |
| OnetKnowledgeBase.OccupationEntry | scripts/onet_knowledge_base.py:92-112 | definition of one occupation's code, cleaned title and chunks, without a contract of its own; stated by `Entries` |
| OnetKnowledgeBase.Catalogue | scripts/onet_knowledge_base.py:90-121 | definition of the records of a list of entries, entry after entry, without a contract of its own; stated by `CatalogueSnoc` and `CatalogueIdsDistinct` |
| OnetKnowledgeBase.KnowledgeBase | scripts/onet_knowledge_base.py:90-121 | definition of the whole record list, without a contract of its own; stated by `BuildKnowledgeBase` and `KnowledgeBaseIdsDistinct` |
| OnetKnowledgeBase.NumberedRecordsSnoc | scripts/onet_knowledge_base.py:114-121 | numbering one more chunk appends exactly its record, numbered `k+1` |
| OnetKnowledgeBase.CatalogueSnoc | scripts/onet_knowledge_base.py:92-121 | the records of one more occupation come after those of the earlier ones |
| OnetKnowledgeBase.HashAfterCode | scripts/onet_knowledge_base.py:117 | in `code#idx` the first `#` sits right after the code |
| OnetKnowledgeBase.DocIdInjective | scripts/onet_knowledge_base.py:117 | for codes without `#`, equal document ids mean equal codes and equal numbers |
| OnetKnowledgeBase.NumberedRecordsShape | scripts/onet_knowledge_base.py:114-121 | one record per chunk in chunk order: record `i` has id `code#(i+1)`, title `title (Chunk i+1)` and chunk `i` as content; no two share an id |
| OnetKnowledgeBase.OccupationHasRecords | scripts/onet_knowledge_base.py:103-112 | the combined document always has words, so it is chunked with 200/50 (the fallback never applies) and yields at least one record |
| OnetKnowledgeBase.MissingEntriesUseDefaults | scripts/onet_knowledge_base.py:97-100 | a code missing from the task map reads as "No specific tasks listed.", and one missing from the context map reads as "No specific work context listed." |
| OnetKnowledgeBase.IdsFromAppend | scripts/onet_knowledge_base.py:114-121 | after appending the last entry's records, every id still names one of the entries |
| OnetKnowledgeBase.IdsDistinctAppend | scripts/onet_knowledge_base.py:114-121 | appending the records of a new code keeps the ids pairwise distinct |
| OnetKnowledgeBase.CatalogueIdsDistinct | scripts/onet_knowledge_base.py:92-121 | with distinct `#`-free codes, every record id names one entry and no two records share an id |
| OnetKnowledgeBase.KnowledgeBaseIdsDistinct | scripts/onet_knowledge_base.py:92-121 | with pairwise distinct `#`-free occupation codes, the document ids of the whole knowledge base are pairwise distinct |
| OnetKnowledgeBase.BuildKnowledgeBase | scripts/onet_knowledge_base.py:90-121 | the record loop produces, occupation after occupation, exactly the numbered chunk records of each occupation |
| OnetKnowledgeBase.AppendOccupation | scripts/onet_knowledge_base.py:93-121 | one turn appends the occupation's records to those already built |
| OnetKnowledgeBase.AppendNumbered | scripts/onet_knowledge_base.py:114-121 | `enumerate(chunks, start=1)` appends one record per chunk, numbered from 1 |
| DataProcessing.Mean | app/data_processing.py:16-18 | definition of the arithmetic mean `pivot_table` aggregates with, without a contract of its own; stated by `MeanBounds` |
| DataProcessing.MeanBounds | app/data_processing.py:16-18 | a mean lies between a lower and an upper bound of its values |
| DataProcessing.SumBounds | app/data_processing.py:16-18 | a sum of `n` values within `[lo, hi]` lies within `[n*lo, n*hi]` |
| DataProcessing.Best | app/data_processing.py:41 | the pick is in range and not among the excluded indices |
| DataProcessing.BestFinds | app/data_processing.py:41 | a pick is found whenever some index is left |
| DataProcessing.BestIsFirst | app/data_processing.py:41 | the pick comes before every other remaining index in keep-first order (larger value first, then earlier dimension) |
| DataProcessing.PicksFound | app/data_processing.py:41 | with at least three values, each of the three successive picks finds an index |
| DataProcessing.TopThree | app/data_processing.py:41 | three in-range indices |
| DataProcessing.TopThreeRanked | app/data_processing.py:41 | `TopThree` is a keep-first top three: distinct, ordered, and ahead of every other index |
| DataProcessing.TopThreeLeads | app/data_processing.py:41 | the first of a top three precedes every other index, and the second precedes every index but the first |
| DataProcessing.TopThreeUnique | app/data_processing.py:41 | any ranking with the top-three properties equals `TopThree`, so the label depends on the centroid alone |
| DataProcessing.ClusterName | app/data_processing.py:32-42 | a 5-character name with hyphens at positions 1 and 3 and three distinct letters from `RIASEC` |
| DataProcessing.ClusterNameRanks | app/data_processing.py:32-42 | the name's letters are those of a keep-first top three of the centroid: non-increasing values, every other dimension no larger than the third, ties to the earlier dimension |
| DataProcessing.InPivot | app/data_processing.py:16-29 | definition of the pivot's index: a code with at least one "OI" row, without a contract of its own; the inner join keeps exactly these codes (`JoinProfilesSound`, `JoinProfilesComplete`) |
| DataProcessing.HasColumn | app/data_processing.py:16-33 | definition of the pivot's columns: an element with at least one "OI" row, without a contract of its own; a missing score column fails the load (`LoadAndPrepareFailures`) |
| DataProcessing.CellValues | app/data_processing.py:16-18 | every value of a pivot cell comes from a row with that code and element; the cell is empty exactly when no such row exists |
| DataProcessing.PivotCell | app/data_processing.py:16-18 | definition of a pivot cell, the mean or NaN, without a contract of its own; stated by `ProfileScoreMissing` and `ProfileScoreBounds` |
| DataProcessing.ProfileOf | app/data_processing.py:20-29 | a joined row keeps the occupation's code and title and has one score per renamed column |
| DataProcessing.JoinProfiles | app/data_processing.py:29 | the inner join has no more rows than the occupation table |
| DataProcessing.JoinProfilesSound | app/data_processing.py:29 | joined row `i` is the profile of an occupation at position `i` or later that has an interest row |
| DataProcessing.JoinProfilesComplete | app/data_processing.py:29 | every occupation with an interest row is in the join |
| DataProcessing.JoinProfilesAll | app/data_processing.py:29 | when every occupation has an interest row, the join drops none |
| DataProcessing.ProfileScoreMissing | app/data_processing.py:16-29 | a joined score is missing exactly when the occupation has no "OI" row for that element |
| DataProcessing.ProfileScoreBounds | app/data_processing.py:16-18 | a present score lies within the bounds of the occupation's values for that element |
| DataProcessing.ScoreVector | app/data_processing.py:32-33 | `fillna(0)`: each dimension is the score when present and 0 when missing |
| DataProcessing.ScoreMatrix | app/data_processing.py:32-33 | the matrix KMeans is fitted on: row `i` is the filled score vector of joined row `i` |
| DataProcessing.NameOfCluster | app/data_processing.py:44-49 | definition of `map(cluster_name.to_dict())`, NaN for an id without a centroid, without a contract of its own; stated by `LoadAndPrepareJobs` |
| DataProcessing.Labelled | app/data_processing.py:37-49 | one labelled job per joined row |
| DataProcessing.ScaleRows | app/data_processing.py:74 | only rows on the given scale remain; the interests table is filtered with it on "OI" (`app/data_processing.py:14`) |
| DataProcessing.ScaleRowsMembers | app/data_processing.py:14 | a row survives the filter exactly when it is in the table and on the scale |
| DataProcessing.ScaleRowsAppend | app/data_processing.py:74 | the scale filter distributes over concatenation |
| DataProcessing.ScaleRowsNone | app/data_processing.py:74 | a table without rows on the scale filters to nothing |
| DataProcessing.ScaleRowsCount | app/data_processing.py:74 | the filtered rows are, with multiplicity, exactly the table's rows on the scale |
| DataProcessing.SortedDesc | app/data_processing.py:76 | definition of a table sorted by descending `Data Value`, without a contract of its own |
| DataProcessing.IsDescOrder | app/data_processing.py:76 | definition of an order `sort_values(ascending=False)` may produce: sorted and a permutation of the rows, without a contract of its own; `SortDescSorted` shows one exists |
| DataProcessing.Group | app/data_processing.py:77 | a group holds only rows of its code |
| DataProcessing.GroupCount | app/data_processing.py:77 | a group holds, with multiplicity, exactly the rows of its code |
| DataProcessing.GroupPermutation | app/data_processing.py:76-77 | tables with the same rows have groups with the same rows |
| DataProcessing.GroupSorted | app/data_processing.py:76-77 | a group of a descending table is descending and made of the table's rows |
| DataProcessing.TakeTop | app/data_processing.py:78 | `head(5)` keeps the first min(5, k) rows of a group |
| DataProcessing.ElementNames | app/data_processing.py:81 | the names of the kept rows, in order |
| DataProcessing.OrderRows | app/data_processing.py:74-76 | every row of a valid descending order is a table row on the scale |
| DataProcessing.Codes | app/data_processing.py:77-82 | definition of the `groupby` keys: the codes with a row, without a contract of its own; `TopElementsKeys` states the keys of the result |
| DataProcessing.TopElements | app/data_processing.py:77-82 | definition of `groupby.head(5)` and the name lists, without a contract of its own; stated by `TopElementsKeys`, `TopElementsCount` and `TopElementsRanked` |
| DataProcessing.TopElementsKeys | app/data_processing.py:75-82 | for any order the sort may produce, a code is a key exactly when it has a row on the scale |
| DataProcessing.TopElementsCount | app/data_processing.py:76-78 | a code with `k` rows on the scale lists min(5, k) names |
| DataProcessing.GroupTopRanked | app/data_processing.py:77-78 | the kept rows of a group are descending, of the group's code, and at least as large as every dropped row of the group |
| DataProcessing.TopElementsRanked | app/data_processing.py:74-82 | for any order the sort may produce, a code's names are those of its first rows, in non-increasing value, each a row of that code on the scale; every dropped row of the code is no larger than every listed one |
| DataProcessing.InsertDesc | app/data_processing.py:76 | inserting adds exactly the one row |
| DataProcessing.InsertDescAtMost | app/data_processing.py:76 | inserting a row under a bound keeps all rows under it |
| DataProcessing.ConsSorted | app/data_processing.py:76 | a row at least as large as a sorted list stays sorted in front of it |
| DataProcessing.SortedTail | app/data_processing.py:76 | the tail of a descending list is descending and bounded by its head |
| DataProcessing.InsertDescSorted | app/data_processing.py:76 | inserting into a descending list keeps it descending |
| DataProcessing.SortDesc | app/data_processing.py:76 | the sort is a permutation of its input |
| DataProcessing.SortDescSorted | app/data_processing.py:76 | the concrete sort produces one of the orders `sort_values(ascending=False)` may produce |
| DataProcessing.GetTopElements | app/data_processing.py:70-87 | the scale defaults to "IM". A missing file gives `{}`, any other read error gives no result (the exception escapes), and readable rows give the top-element map of a valid descending order of the rows on the scale |
| DataProcessing.TopElementsIgnoreOtherScales | app/data_processing.py:74 | rows on another scale do not change `_get_top_elements` |
| DataProcessing.LoadAndPrepare | app/data_processing.py:5-67 | an occupation or interest file that cannot be read gives the failure result |
| DataProcessing.LoadAndPrepareJobs | app/data_processing.py:29-57 | on success there is one job per joined row (at least 8). Each job keeps its code, title and scores and carries the label KMeans gives its row of the filled score matrix. Its name is the name of its own cluster's centroid, or missing for a label without a centroid. The three maps are the "IM" top elements of their files |
| DataProcessing.LoadAndPrepareShaped | app/data_processing.py:29-57 | a successful load has at least one row per cluster and six scores in every row, as the routes need |
| DataProcessing.LoadAndPrepareFailures | app/data_processing.py:28-67 | a score column without any "OI" row, fewer joined rows than clusters, a clustering of the filled score matrix whose label count differs from the row count, or a competency file that raises anything but `FileNotFoundError` all give the failure result |
| DataProcessing.LoadAndPrepareSucceeds | app/data_processing.py:5-57 | conversely, readable occupation and interest files with all six score columns, at least 8 joined rows, a clustering with one label per row and six-value centroids, and competency files that are missing or readable give a result |
| DataProcessing.LoadIgnoresOtherScales | app/data_processing.py:14 | interest rows on another scale than "OI" do not change the load |
| Routes.Submitted | app/routes.py:22-24 | a dimension's list is the submitted one, or `[0]` when its letter is absent |
| Routes.UserProfile | app/routes.py:20-25 | the profile is defined exactly when every dimension's list is non-empty |
| Routes.UserProfileAbsent | app/routes.py:22-24 | an absent letter gives the value 0 |
| Routes.UserProfileBounds | app/routes.py:22-24 | a submitted dimension's mean lies within the bounds of its answers |
| Routes.Similarities | app/routes.py:28-31 | one similarity per corpus row |
| Routes.ZeroFilled | app/routes.py:28 | after `fillna(0)` every score is present |
| Routes.MissingScoresAreZero | app/routes.py:28-31 | filling missing scores with 0 beforehand gives the same similarities: a missing score is treated as 0 |
| Routes.IsTopK | app/routes.py:34 | definition of a valid `sort_values(ascending=False).head(k)`, without a contract of its own; `TopK` establishes it |
| Routes.Pick | app/routes.py:34 | picks a remaining position whose value is a largest among the remaining ones |
| Routes.TopK | app/routes.py:34 | `sort_values(ascending=False).head(k)`: min(k, n) distinct positions in non-increasing value, and every omitted position has a value no larger than every listed one, whatever the tie order |
| Routes.Lookup | app/routes.py:40-42 | definition of `map.get(code, [])`, without a contract of its own; stated by `AssembleRows` |
| Routes.AssembleRows | app/routes.py:36-43 | one row per ranked position, in rank order, with title, cluster name and similarity of that job. Knowledge, skills and abilities are that code's map entries, or `[]` when the code is absent |
| Routes.RowFor | app/routes.py:36-43 | definition of one result row, without a contract of its own; stated by `AssembleRows` and `App.Recommend` |
| Routes.App.constructor | app/__init__.py:15-24 | from a load result shaped as a successful load guarantees: a fresh corpus holding the prepared jobs in order without a similarity column, and the three maps; a failed load leaves no corpus. The new app satisfies `Valid` |
| Routes.CreateApp | app/__init__.py:15-24 | the app built from `load_and_prepare_data` satisfies `Valid`, so `Recommend` may be called on it; it has a corpus exactly when the load succeeds, holding the prepared jobs in order |
| Routes.App.Valid | app/routes.py:16-31 | definition of the app invariant: a loaded corpus has six scores per row and at least one row per cluster, without a contract of its own; `CreateApp` establishes it and `Recommend` keeps it |
| Routes.RecommendStatus | app/routes.py:15-51 | 200 exactly for a ranking, 500 for the no-data and the crash replies |
| Routes.App.Recommend | app/routes.py:15-51 | the status is 200 exactly when the corpus is loaded and every dimension's list is non-empty. A missing corpus gives the no-data 500 before anything is computed. A profile with an empty answer list fails (500) and leaves the corpus unchanged. Otherwise every corpus row has its similarity column overwritten, the top-20 ranking above is chosen, and one row per ranked job is returned |
| Routes.Given | app/routes.py:64 | definition of a truthy string field (present and non-empty), without a contract of its own; stated by `ChatBadRequest` |
| Routes.Chat | app/routes.py:54-81 | the LLM check comes first, then the collection check, then the input check (400). Only with both clients and both inputs is the model asked. Its answer is returned verbatim, a `ValueError` gives 500 with its message, and any other exception gives 500 with the generic message |
| Routes.ChatBadRequest | app/routes.py:55-65 | the reply is a 400 exactly when both clients are present and the question or the summary is missing or empty |
| Routes.ChatGuardsSkipModel | app/routes.py:55-65 | when a guard fails, the reply does not depend on the model |
| SurveyScript.CategoryOfQuestion | app/static/js/script.js:2-11 | the table has 48 questions and question `q` belongs to `steps[q div 8]` |
| SurveyScript.InStep | app/static/js/script.js:2-11 | a question is in step `s`'s category exactly when it lies in block `s` |
| SurveyScript.RatingValue | app/static/js/script.js:149 | `parseInt` of a radio value is between 1 and 5 |
| SurveyScript.IsRating | app/static/js/script.js:149 | definition of a radio value, one digit from "1" to "5", without a contract of its own; `RatingValue` parses it |
| SurveyScript.Answered | app/static/js/script.js:78 | definition of a truthy `userAnswers[q]`, without a contract of its own; stated by `Survey.ValidateStep` |
| SurveyScript.AnsweredBelow | app/static/js/script.js:69-82 | definition of every question of a step below `n` being answered, without a contract of its own; stated by `AnsweredBelowStep` |
| SurveyScript.StepComplete | app/static/js/script.js:68-88 | definition of what `validateStep` checks, every question of the step answered, without a contract of its own; `Survey.ValidateStep` returns exactly it |
| SurveyScript.AnsweredBelowStep | app/static/js/script.js:73-82 | extending the checked range by one question adds exactly that question's check |
| SurveyScript.StepCompleteGrows | app/static/js/script.js:292-295 | recording an answer never makes a step incomplete |
| SurveyScript.Payload | app/static/js/script.js:146 | the request body has one list per category |
| SurveyScript.Grouped | app/static/js/script.js:146-150 | definition of the grouped lists after the loop has seen the keys below `n`, without a contract of its own; stated by `GroupAnswers`, `GroupedRatings`, `GroupedLength`, `GroupedEntry`, `GroupedStep` and `GroupedTotal` |
| SurveyScript.GroupAnswers | app/static/js/script.js:146-150 | the `for…in` loop builds, for each category, the parsed answers of that category's questions in ascending question order |
| SurveyScript.GroupedRatings | app/static/js/script.js:146-150 | every grouped value is between 1 and 5 |
| SurveyScript.GroupedLength | app/static/js/script.js:146-150 | when a step is complete, after the first `n` questions its list has one entry per question of its block below `n` |
| SurveyScript.GroupedEntry | app/static/js/script.js:146-150 | when a step is complete, entry `i` of its list is the parsed answer to question `8c + i` |
| SurveyScript.CountBelowKeys | app/static/js/script.js:147 | the answers counted below `n` are exactly the answered questions below `n` |
| SurveyScript.GroupedStep | app/static/js/script.js:147-149 | visiting question `n` appends one entry to its own category's list and none to the others |
| SurveyScript.GroupedTotal | app/static/js/script.js:146-150 | the six list lengths after the first `n` questions sum to the number of answers below `n` |
| SurveyScript.CountAll | app/static/js/script.js:147 | counting below 48 counts every answer |
| SurveyScript.PayloadTotal | app/static/js/script.js:146-150 | the list lengths sum to the number of answers |
| SurveyScript.CategoryScore | app/static/js/script.js:178-182 | definition of the per-category mean, 0 for an empty list, without a contract of its own; stated by `CategoryScoreBounds` |
| SurveyScript.CategoryScoreBounds | app/static/js/script.js:178-182 | a category's score is 0 for an empty list, and otherwise lies within the bounds of its scores (the arithmetic mean) |
| SurveyScript.RequestBody | app/static/js/script.js:157 | definition of the JSON body as the server reads it, without a contract of its own; stated by `RequestBodyLookup` |
| SurveyScript.RequestBodyLookup | app/static/js/script.js:146-157 | the server reads each category's list exactly as the browser grouped it |
| SurveyScript.Reals | app/static/js/script.js:157 | the JSON numbers are the grouped integers |
| SurveyScript.NextLabel | app/static/js/script.js:65 | the next button reads "Get Results" exactly on the last step |
| SurveyScript.BackVisible | app/static/js/script.js:64 | definition of the back-button rule, hidden exactly on step 0, without a contract of its own |
| SurveyScript.Survey.constructor | app/static/js/script.js:13-14 | the survey starts on step 0 with no answers |
| SurveyScript.Survey.ValidateStep | app/static/js/script.js:68-88 | true exactly when every question of the current step has a non-empty answer |
| SurveyScript.Survey.GoToNext | app/static/js/script.js:90-100 | an incomplete step changes nothing and submits nothing. A complete earlier step moves one step on. The complete last step submits the grouped answers. The step stays within 0..5 and all steps before it stay complete |
| SurveyScript.Survey.GoToBack | app/static/js/script.js:102-108 | moves one step back only when the step is above 0; answers unchanged |
| SurveyScript.Survey.RecordAnswer | app/static/js/script.js:292-295 | updates only the answered question's entry, and the step is unchanged |
| SurveyScript.SubmissionComplete | app/static/js/script.js:90-150 | a submission after all six steps are complete has 8 ratings between 1 and 5 in every category |
| SurveyScript.SubmissionProfile | app/static/js/script.js:146-157 | the server-side profile of a completed survey is defined, and every dimension lies in [1, 5] |
| SurveyScript.ProfileEntryBounds | app/routes.py:22-24 | a dimension fed eight ratings between 1 and 5 has a mean in [1, 5] |

## Left out

- KMeans fitting (`app/data_processing.py:34-38`) is not modelled. Its labels and centroids are an input, and a
  label count that differs from the row count stands for the exception path.
- `cosine_similarity` (`app/routes.py:31`) is an arbitrary function argument. It needs square roots on floats.
- Floating point: scores, means and similarities are exact reals. NaN appears only where the code produces it
  structurally, as a missing pivot cell, a missing cluster name, or the mean of an empty answer list.
- `np.mean([])` is not modelled as a value. The resulting NaN makes `cosine_similarity` raise, and the model treats
  that as the reply `Crashed` (HTTP 500) without the body Flask renders.
- `toFixed(2)` rounding, the progress percentage (`script.js:60-62`) and the profile summary text are not modelled.
- No file or database I/O is modelled: `read_parquet`, `read_excel`, the module-level read at
  `scripts/onet_knowledge_base.py:14`, the JSON dump and its error printing. Files are `Option` values.
- The task and work-context dictionaries (`scripts/onet_knowledge_base.py:63-88`) are input maps. The `return` on a
  missing file is not modelled.
- `scripts/convert_data.py`, `scripts/vectorize_knowledge_base.py`, `app/__init__.py` beyond its data step (the LLM and
  Milvus clients), `app/config.py`, `run.py` and
  the tests are bootstrapping and foreign services. They are not part of this model.
- `get_ai_response` (`app/services`) and `calculate_scores` are not part of this model. `Routes.Chat` only sees the
  outcome of the call.
- `app/visualizations.py` and the chart images of `/recommend` (`app/routes.py:45-50`) are not modelled. That is
  matplotlib rendering.
- `renderStep`, the fades, `fetch`, scrolling, `marked` and all DOM updates are not modelled. `updateUI` is modelled
  only for the two button rules.
- Two concurrent requests racing on the shared similarity column are not modelled. `Recommend` is one request.
- `Routes.TopK`: pandas' unstable sort gives no order among equal similarities. The contract allows any tie order, and
  the selection loop picks one. No stable tie-break is claimed.
- `DataProcessing.GetTopElements`: its properties are proved for every order the sort may produce. The load uses one
  concrete descending sort.
- `SurveyScript.Survey.RecordAnswer` requires the value to be a radio value "1" to "5", which are the only values the
  page's radio buttons carry. Keys are question indices, not the attribute strings JavaScript uses.
- Question texts and option labels are not modelled. Only each question's category is.
- A request body that is not a JSON object, or lists holding non-numbers, is not modelled. The routes take a map from
  letters to lists of reals.
- An interest table may have element columns beyond the six renamed ones; they are not modelled, since the clustering
  only selects the six.
- `OnetKnowledgeBase.ChunksCoverWords`, `OnetKnowledgeBase.StartsSteps` and `OnetKnowledgeBase.ChunkWindows` require
  `max_words >= 1` (and the first two `overlap >= 0`). With other arguments the loop still terminates
  (`StartsIncrease`), but empty or out-of-range windows are possible.
- `Routes.Chat` and `Routes.Given` take each JSON field as an optional string. Flask rejects any falsy JSON value
  (`0`, `false`, `[]`, `{}`, `null`) with 400 and passes a truthy non-string on to the model; the model covers only
  strings and absent fields.
- `DataProcessing.GetTopElements` does not tell the read errors apart. A corrupt file, a permission error and a missing
  column (`KeyError`) are the one outcome `Unreadable`, which fails the load through the handler at
  `app/data_processing.py:65-67`. `EmptyDataError`, which `read_parquet` does not raise, is not modelled apart from
  `Missing`.
- `Routes.App.constructor` sets the three maps to `{}` after a failed load, where the source stores `None`. `recommend`
  never reads them then, because it answers 500 first.
