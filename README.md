# PetAI data transforms, modelled in Dafny

PetAI keeps a table of dog and cat breeds. Each breed has Vietnamese care text, prices, and four
heuristic scores: energy, space, grooming and kid-friendliness. This project models the small
deterministic programs that prepare that data and proves what they compute. The programs fall
into three groups.

- **Keyword-priority care scoring.** There are two revisions of it.
  - `ai/preprocessing/vibe_csv.py`, module `VibeCsv`.
    - `calculate_score` scans fixed keyword tables at levels 5, 4, 1, 2, in that order. The
      first level with a substring hit wins, level 3 is never scanned, and the caller's
      default is the fallback.
    - `get_is_cat` lets a present `type` cell decide. Only when that cell is missing does it
      look for "mèo" in the breed name and the care text.
    - `process_csv` works on the frame in place. It filters rows, adds the score columns,
      rewrites `type` from `is_cat`, relabels the price columns, fills missing columns and
      projects onto `final_cols`. A `Frame` class with `modifies` clauses models this.
  - The earlier root `vibe_csv.py`, module `PetMetadata`.
    - It has three-valued high/low/default scorers, a kid rule that reacts only to caution
      keywords, and a text-only cat test.
    - `process_pet_metadata` adds five columns to the frame, or stops when `cách chăm` is
      missing.
  - Module `Keywords` holds the shared first-match search over an ordered list of
    `(level, keywords)` tiers.
  - Module `Tabular` holds the frame: column labels, positional rows, missing cells, and
    column assignment, filtering and selection.
- **The quote-aware CSV tokeniser and the record builder of the two `convert_pets.js`
  scripts.**
  - Both `parseCSV` loops are `while` loops proved equal to one reference function,
    `CsvScan.Scan`, in `ConvertPets.ParseCsv` and `BackendConvertPets.ParseCsv`.
  - `Scan` is parameterised by the two ways the copies differ:
    - The root copy skips lines that are a single empty cell. At the end of the text it
      pushes the pending row, but not the pending cell.
    - The backend copy emits every line and has no final flush.
  - The output of a CSV writer (`EncodeRows`) is read back as the written rows, and that is
    proved for both variants. The root variant leaves out the rows that are a single empty
    cell; the backend variant returns every row (`CsvScan.RoundTrip`).
  - Module `PetFields` holds the shared parts of the record builder:
    - the trimmed cell accessor;
    - JavaScript `parseInt`: leading whitespace, a sign, a `0x` prefix and the longest digit
      prefix, with NaN as `None`;
    - the `|| default` rule, under which NaN and 0 both fall back;
    - the digit runs of the price text and their minimum and maximum;
    - the whitespace-collapsing slug;
    - the `map`/`filter` pipeline.
- **The JSON fix-up scripts.**
  - `a.py`, module `ImagePaths`. `normalize_image_path` rewrites a path to the
    `/assets/dog_images/...` form. A loop rewrites each pet's `image_path` and counts the
    entries whose value changed.
  - `fix_img.py`, module `FixImg`. It title-cases `name` and turns `-` into `_` in
    `image_path`.
  - Module `PyJson` models the JSON values and Python's `in`, `[]` and `[]=` on them,
    including the exceptions those raise.

Three consequences of the code are proved:
- In `process_csv`, a frame without a `type` column gets the column filled with `'Dog'` before
  `get_is_cat` runs. Every such row therefore ends with `is_cat` 0, and the text fallback only
  applies to rows whose `type` cell is missing (`VibeCsv.TypedRow`).
- In the root `parseCSV`, a last line that is not ended by a line break loses its last cell
  (`CsvScan.RootDropsPendingCell`).
- `process_csv` relabels the price header and the two columns after it in the frame that
  already holds the derived columns. In the layout the script is written for, the header is
  followed by two columns of the file, and the derived columns reach the output as computed
  (`VibeCsv.ExportedRowInLayout`). When the header is one of the last two columns of the
  file, the relabelling reaches `score_energy` (and `score_space`), and the fill step then
  writes "" into those output columns. The model computes this case (`VibeCsv.ProcessCsvSpec`);
  no lemma states it separately.

## Model

| member | source | states |
|---|---|---|
| Text.Lower | vibe_csv.py:17 | lower-casing maps each character on its own, keeps the length, and leaves no upper-case letter |
| Text.LowerKeepsContains | ai/preprocessing/vibe_csv.py:50 | a substring still occurs, lower-cased, after lower-casing |
| Text.Strip | ai/preprocessing/vibe_csv.py:50 | strip removes exactly the leading and trailing whitespace runs: the result has no whitespace at either end and the input is whitespace + result + whitespace |
| Text.StripIdempotent | ai/preprocessing/vibe_csv.py:50 | stripping twice is stripping once |
| Text.StripAllSpace | convert_pets.js:70 | text that is all whitespace trims to "" |
| Text.ReplaceChar | backend/src/convert/convert_pets.js:67 | a global one-character replace changes exactly the matching characters and keeps the length |
| Text.ReplaceCharRemovesAll | fix_img.py:18 | after replacing one character by another, none of it remains |
| Text.ReplaceCharIdempotent | fix_img.py:18 | replacing a second time changes nothing |
| Keywords.FirstMatch | ai/preprocessing/vibe_csv.py:62-66 | the result is the level of the first tier with a keyword occurring in the text, or the default when no tier hits, and always one of the levels or the default |
| Keywords.FirstMatchIgnoresLaterTiers | ai/preprocessing/vibe_csv.py:62-65 | once some tier hits, tiers after it never change the result (the early return) |
| Keywords.KeywordInPhrase | ai/preprocessing/vibe_csv.py:63-64 | a keyword found at any position of the text is a hit |
| Keywords.TwoTierCases | vibe_csv.py:44-50 | with two distinct levels: the first iff its list hits, the second iff only its list hits, the default iff neither hits |
| Keywords.OneTierCases | vibe_csv.py:90-94 | with one tier: its level iff its list hits, otherwise the default |
| Keywords.FirstMatchFour | ai/preprocessing/vibe_csv.py:61-66 | with four tiers: the five-way case split of the scan, earlier tiers winning |
| Tabular.DistinctPairs | ai/preprocessing/vibe_csv.py:183-190 | a label list is duplicate-free exactly when no two positions hold the same label |
| Tabular.IndexOf | ai/preprocessing/vibe_csv.py:185 | `cols.index(x)` is the first position holding x |
| Tabular.IndexOfDistinct | ai/preprocessing/vibe_csv.py:185 | in a duplicate-free label list each label's index is its own position |
| Tabular.WithColumn | ai/preprocessing/vibe_csv.py:125 | assigning a column keeps an existing label in place or appends a new one at the end, and the labels stay duplicate-free |
| Tabular.KeepPresent | ai/preprocessing/vibe_csv.py:109 | a row is kept iff it was a row and its cell in the column is not missing; a one-row list is kept iff its cell is present |
| Tabular.KeepPresentAppend | ai/preprocessing/vibe_csv.py:109-111 | the filter of two row lists is the filter of the first followed by the filter of the second, so with the one-row case the filter keeps the rows' order and repetitions |
| Tabular.Table.Column | ai/preprocessing/vibe_csv.py:125 | `df[c]` holds, row by row, the cell under label c |
| Tabular.Table.KeepPresentIn | ai/preprocessing/vibe_csv.py:109-111 | `df[df[c].notna()]` keeps the labels and exactly the rows whose c cell is present |
| Tabular.KeepPresentInSnoc | ai/preprocessing/vibe_csv.py:109-111 | `df[df[c].notna()]` row by row: a frame that gains a last row gains it in the result exactly when its c cell is present |
| Tabular.WithColumnExtends | ai/preprocessing/vibe_csv.py:125 | assigning a column keeps every existing label at its position |
| Tabular.AssignExtends | ai/preprocessing/vibe_csv.py:125-142 | `df[c] = values` keeps every existing label at its position |
| Tabular.IndexOfExtends | ai/preprocessing/vibe_csv.py:185 | after labels are appended, an old label keeps its index and a new label is found after all the old ones |
| Tabular.Table.Assign | ai/preprocessing/vibe_csv.py:125-128 | `df[c] = values`: column c holds the values, every other column is unchanged, the row count is unchanged |
| Tabular.Table.Select | ai/preprocessing/vibe_csv.py:205 | `df[labels]`: row i, position m holds row i's cell under labels[m] |
| Tabular.Frame.constructor | ai/preprocessing/vibe_csv.py:97 | a frame holding the table read from the CSV |
| Tabular.Frame.DropMissing | ai/preprocessing/vibe_csv.py:109-111 | reports whether the column exists; if so the frame keeps only the rows whose cell is present, otherwise it is unchanged |
| Tabular.Frame.Assign | ai/preprocessing/vibe_csv.py:125 | the frame becomes its old table with column c assigned |
| Tabular.Frame.Relabel | ai/preprocessing/vibe_csv.py:186-190 | the frame keeps its rows under the new duplicate-free labels |
| VibeCsv.NormalizeText | ai/preprocessing/vibe_csv.py:47-50 | a missing cell gives ""; otherwise the lower-cased text with its edge whitespace removed and nothing else: no upper-case letter, no edge whitespace |
| VibeCsv.Tiers | ai/preprocessing/vibe_csv.py:62-63 | the tiers scanned are the table's lists for levels 5, 4, 1, 2, in that order |
| VibeCsv.CalculateScore | ai/preprocessing/vibe_csv.py:52-66 | 5 if a level-5 keyword occurs in the normalised text, else 4 on a level-4 hit, else 1, else 2, else the default; the result is in {5, 4, 1, 2, default} |
| VibeCsv.LevelThreeIgnored | ai/preprocessing/vibe_csv.py:62 | replacing the level-3 list by anything leaves every score unchanged |
| VibeCsv.MissingTextScoresDefault | ai/preprocessing/vibe_csv.py:48-49 | a missing cell scores the default, for any table of non-empty keywords |
| VibeCsv.LevelFiveWins | ai/preprocessing/vibe_csv.py:62-65 | any level-5 hit gives 5, whatever else occurs |
| VibeCsv.ExtremeBeatsMild | ai/preprocessing/vibe_csv.py:40-44 | "rất thân thiện nhưng nguy hiểm" holds a level-1 and a level-5 kid keyword and scores 5 |
| VibeCsv.CatTest | ai/preprocessing/vibe_csv.py:73-84 | with a present type: 1 iff its lower-cased text contains "cat" or "mèo"; with a missing type: 1 iff "mèo" occurs in the normalised breed or care text; always 0 or 1 |
| VibeCsv.GetIsCat | ai/preprocessing/vibe_csv.py:68-84 | the same case split on the row's own `type`, breed and care cells, an absent column reading as "" |
| VibeCsv.TypeTakesPrecedence | ai/preprocessing/vibe_csv.py:73-77 | with a present type, rows agreeing on it get the same flag whatever their name and care text |
| VibeCsv.DogTypeBeatsText | ai/preprocessing/vibe_csv.py:136-139 | a row whose type is "Dog" has is_cat 0 |
| VibeCsv.ScoreColumn | ai/preprocessing/vibe_csv.py:125 | the applied column holds each care cell's score |
| VibeCsv.IsCatColumn | ai/preprocessing/vibe_csv.py:139 | the applied column holds each row's get_is_cat |
| VibeCsv.TypeColumn | ai/preprocessing/vibe_csv.py:142 | "Cat" exactly where is_cat is 1, "Dog" elsewhere |
| VibeCsv.Filtered | ai/preprocessing/vibe_csv.py:109-111 | the kept rows are exactly the rows with a present STT and a present breed name (their order in FilteredSnoc) |
| VibeCsv.FilteredSnoc | ai/preprocessing/vibe_csv.py:109-111 | the two filters row by row: a last row is kept, after the rows kept before it, exactly when its STT and breed cells are present |
| VibeCsv.ScoreStep | ai/preprocessing/vibe_csv.py:125 | one score assignment adds its column and keeps the care column |
| VibeCsv.Scored | ai/preprocessing/vibe_csv.py:125-128 | the four score columns are added and no other label appears |
| VibeCsv.TablesReady | ai/preprocessing/vibe_csv.py:11-45 | every keyword table has a list for levels 5, 4, 1 and 2, so the scan never raises KeyError |
| VibeCsv.ScoredWith | ai/preprocessing/vibe_csv.py:125-128 | the four assignments for any ready set of tables add exactly the four score labels |
| VibeCsv.WithType | ai/preprocessing/vibe_csv.py:135-136 | afterwards a `type` column exists |
| VibeCsv.Typed | ai/preprocessing/vibe_csv.py:135-142 | only `type` and `is_cat` are added |
| VibeCsv.BeforeRename | ai/preprocessing/vibe_csv.py:109-142 | the frame before relabelling has the input labels plus the six derived ones |
| VibeCsv.PriceLabels | ai/preprocessing/vibe_csv.py:186-190 | the header and the two columns after it get the three price labels and every other label stays |
| VibeCsv.Renamed | ai/preprocessing/vibe_csv.py:183-190 | relabelling keeps the column count |
| VibeCsv.FillMissing | ai/preprocessing/vibe_csv.py:201-203 | the labels become the old ones plus the listed ones; old columns are unchanged and each new one is all "" |
| VibeCsv.FinalColsDistinct | ai/preprocessing/vibe_csv.py:193-198 | the thirteen final labels are pairwise distinct |
| VibeCsv.Export | ai/preprocessing/vibe_csv.py:201-205 | the written frame has exactly `final_cols`, in order, and one row per row |
| VibeCsv.Selected | ai/preprocessing/vibe_csv.py:205 | the projection has exactly `final_cols` and keeps the row count |
| VibeCsv.ExportOf | ai/preprocessing/vibe_csv.py:109-205 | the output has the final columns and one row per filtered row |
| VibeCsv.ProcessCsv | ai/preprocessing/vibe_csv.py:89-205 | the in-place pipeline gives the reference outcome: the caught read error, KeyError on a missing care column, IndexError when the price header is too near the end, or the exported frame |
| VibeCsv.ProcessCsvSpec | ai/preprocessing/vibe_csv.py:89-205 | the outcome: the caught read error iff STT or the breed column is absent; KeyError iff only the care column is absent; an export iff the frame is exportable, with `final_cols` and one row per filtered row |
| VibeCsv.AddScores | ai/preprocessing/vibe_csv.py:125-128 | the four in-place assignments leave the frame at the scored table |
| VibeCsv.AddType | ai/preprocessing/vibe_csv.py:135-142 | the type fill, is_cat and the type rewrite leave the frame at the typed table |
| VibeCsv.FillAndSelect | ai/preprocessing/vibe_csv.py:201-205 | the fill loop and the projection give the exported table |
| VibeCsv.FillMissingSnoc | ai/preprocessing/vibe_csv.py:201-203 | each loop step adds the label as a blank column exactly when it is missing |
| VibeCsv.AssignKeepsCell | ai/preprocessing/vibe_csv.py:125-142 | assigning one column never changes another column's cell in any row |
| VibeCsv.ScoredRow | ai/preprocessing/vibe_csv.py:125-128 | each row's energy, space and grooming use default 3 and its kid score default 1, all from its own care cell, and its cat flag is unchanged |
| VibeCsv.ScoredWithRow | ai/preprocessing/vibe_csv.py:125-128 | the same per-row scores for any ready set of tables |
| VibeCsv.ScoreStepRow | ai/preprocessing/vibe_csv.py:125 | the added column holds the row's score and leaves its cat flag alone |
| VibeCsv.ScoreStepKeeps | ai/preprocessing/vibe_csv.py:125 | one score assignment leaves every other column's cells alone |
| VibeCsv.ScoredKeeps | ai/preprocessing/vibe_csv.py:125-128 | scoring leaves every non-score column unchanged |
| VibeCsv.ScoredWithKeeps | ai/preprocessing/vibe_csv.py:125-128 | the same for any ready set of tables |
| VibeCsv.TypedRow | ai/preprocessing/vibe_csv.py:135-142 | type is "Cat" iff is_cat is 1, and otherwise "Dog"; is_cat is get_is_cat when a `type` column existed, and 0 when it did not |
| VibeCsv.TypedKeeps | ai/preprocessing/vibe_csv.py:135-142 | columns other than type and is_cat are unchanged |
| VibeCsv.RenameKeeps | ai/preprocessing/vibe_csv.py:186-190 | a column outside the three relabelled ones keeps its label and its cells |
| VibeCsv.ExportCell | ai/preprocessing/vibe_csv.py:201-205 | output cell m of a row is the row's cell under final label m, or "" when that label was missing |
| VibeCsv.ExportedRow | ai/preprocessing/vibe_csv.py:109-205 | provided the relabelling spares the six derived columns: output columns 8-11 hold the row's scores with defaults 3, 3, 3, 1; type is "Cat" iff is_cat is 1; is_cat is get_is_cat, or 0 without a `type` column |
| VibeCsv.ExportedCells | ai/preprocessing/vibe_csv.py:183-205 | provided the relabelling spares the six derived columns, they reach the output unchanged at positions 1 and 8-12 |
| VibeCsv.SparedExportOf | ai/preprocessing/vibe_csv.py:183-205 | any column the relabelling does not touch reaches the output unchanged |
| VibeCsv.BeforeRenameRow | ai/preprocessing/vibe_csv.py:125-142 | the filtered row's scores, type and is_cat just before relabelling |
| VibeCsv.SparedExport | ai/preprocessing/vibe_csv.py:186-205 | relabelling then exporting keeps an untouched final column's cells |
| VibeCsv.NoPriceHeaderSparesAll | ai/preprocessing/vibe_csv.py:184 | without the price header no column is relabelled |
| VibeCsv.ScoredWithExtends | ai/preprocessing/vibe_csv.py:125-128 | the score columns go after the existing labels, which keep their positions |
| VibeCsv.TypedExtends | ai/preprocessing/vibe_csv.py:135-142 | `type` and is_cat go after the existing labels, which keep their positions |
| VibeCsv.BeforeRenameExtends | ai/preprocessing/vibe_csv.py:109-142 | every input label keeps its position in the frame before the relabelling |
| VibeCsv.WindowSpares | ai/preprocessing/vibe_csv.py:183-190 | when labels are only appended, a label outside the header's three-column window in the file stays outside it |
| VibeCsv.PriceLayoutSpares | ai/preprocessing/vibe_csv.py:109-190 | with the header followed by two file columns, `cols[idx+2]` is in range and every label other than those three is spared |
| VibeCsv.ExportedRowInLayout | ai/preprocessing/vibe_csv.py:109-205 | end to end in the layout the script is written for (the header followed by two file columns, none of them a derived label), when the relabelling gives no duplicate label: the frame is exported, and columns 8-11 hold the row's scores with defaults 3, 3, 3, 1; type is "Cat" iff is_cat is 1; is_cat is get_is_cat, or 0 without a `type` column |
| PetMetadata.NormalizeText | vibe_csv.py:14-17 | a missing cell gives ""; otherwise each character of the text lower-cased, not trimmed |
| PetMetadata.ScoreEnergy | vibe_csv.py:34-50 | the energy score is in {1, 2, 3} |
| PetMetadata.ScoreSpace | vibe_csv.py:52-65 | the space score is in {1, 2, 3} |
| PetMetadata.ScoreGrooming | vibe_csv.py:67-80 | the grooming score is in {1, 2, 3} |
| PetMetadata.ScoreKidFriendly | vibe_csv.py:82-94 | the kid score is 0 or 1 |
| PetMetadata.IsCat | vibe_csv.py:96-109 | the cat flag is 0 or 1 |
| PetMetadata.EnergyCases | vibe_csv.py:40-50 | 3 iff a high keyword occurs; 1 iff no high keyword but a low one occurs; 2 iff neither occurs |
| PetMetadata.SpaceCases | vibe_csv.py:58-65 | 3 iff a garden keyword occurs; 1 iff only an apartment keyword occurs; 2 iff neither occurs |
| PetMetadata.GroomingCases | vibe_csv.py:73-80 | 3 iff a hard keyword occurs; 1 iff only an easy keyword occurs; 2 iff neither occurs |
| PetMetadata.KidCases | vibe_csv.py:88-94 | 0 iff a caution keyword occurs; any two texts without a caution keyword score alike, so the friendly list never matters |
| PetMetadata.HighEnergyBeatsLow | vibe_csv.py:43-49 | "trong nhà, hoạt bát" holds a low and a high keyword and scores 3 |
| PetMetadata.IsCatAnyCasing | vibe_csv.py:101-108 | a breed name holding "mèo" in any letter case gives 1 |
| PetMetadata.ScoreColumn | vibe_csv.py:121-130 | the applied column holds each care cell's score |
| PetMetadata.IsCatColumn | vibe_csv.py:133 | the applied column holds each row's cat flag |
| PetMetadata.ProcessPetMetadata | vibe_csv.py:114-133 | without a `cách chăm` column the frame is untouched and false is returned; otherwise the five columns are assigned in order |
| PetMetadata.Processed | vibe_csv.py:121-133 | the five assignments keep the row count and add exactly the four score labels and is_cat |
| PetMetadata.ProcessedRows | vibe_csv.py:121-133 | each row's five new cells are its own scores and cat flag |
| PetMetadata.AssignKeepsIsCat | vibe_csv.py:121-133 | the score assignments do not change a row's cat flag |
| PetMetadata.ProcessedKeepsOtherColumns | vibe_csv.py:121-133 | every input column other than the five new ones is unchanged |
| CsvScan.Parse | convert_pets.js:24-58 | the reference `parseCSV` of both copies, with the copy's blank-line and end-of-text rules as a parameter: every row it returns holds at least one cell |
| CsvScan.ScanKeepsEmitted | backend/src/convert/convert_pets.js:20-51 | from any state, rows already pushed stay pushed, and every row pushed holds at least one cell |
| CsvScan.EscapedBody | convert_pets.js:34-40 | inside quotes a doubled quote reads as one literal quote; the closing quote ends quote mode |
| CsvScan.QuotedCell | convert_pets.js:34-40 | a quoted, escaped cell reads back as its exact text |
| CsvScan.CommaStep | convert_pets.js:41-43 | outside quotes a comma ends the cell |
| CsvScan.BreakStep | convert_pets.js:44-51 | outside quotes CR, LF or CR LF ends the line once and emits it when the dialect keeps it |
| CsvScan.EolStep | convert_pets.js:44-45 | CR LF counts as a single line break |
| CsvScan.JoinedCells | convert_pets.js:34-43 | a comma-joined list of quoted cells reads back cell for cell |
| CsvScan.EncodedRows | convert_pets.js:24-58 | written rows read back as the rows the dialect emits, whatever follows them |
| CsvScan.RoundTrip | convert_pets.js:24-58 | parsing the writer's output gives back the written rows, less the blank lines the dialect skips |
| CsvScan.BackendEmitsAll | backend/src/convert/convert_pets.js:40-45 | the backend keeps every line, including blank ones |
| CsvScan.RootEmitted | convert_pets.js:47-49 | the root keeps exactly the lines that are not a single empty cell |
| CsvScan.BackendTailDiscarded | backend/src/convert/convert_pets.js:49-50 | backend: text with no line break emits nothing, whatever the state |
| CsvScan.BackendDropsLastLine | backend/src/convert/convert_pets.js:40-50 | backend: an unterminated last line is lost |
| CsvScan.BackendRowCount | backend/src/convert/convert_pets.js:26-48 | backend: each line break outside quotes adds exactly one row |
| CsvScan.BackendRows | backend/src/convert/convert_pets.js:20-51 | the backend returns one row per line break outside quotes, CR LF counting once |
| CsvScan.RootDropsPendingCell | convert_pets.js:56 | at the end of input only the pending row is pushed: an unterminated last line loses its last cell, and a one-cell last line vanishes |
| CsvScan.BlankLine | convert_pets.js:47-49 | a blank line is skipped by the root and gives the row [""] in the backend |
| CsvScan.LoneQuotesVanish | convert_pets.js:34-40 | from a state with no quote in any cell, text without a doubled quote never puts a quote into a cell |
| CsvScan.ParseLoneQuotes | convert_pets.js:34-40 | a single quote only toggles quote mode and never appears in a cell |
| ConvertPets.ParseCsv | convert_pets.js:24-58 | the character loop, with its extra index skips, returns the reference tokeniser's rows |
| ConvertPets.SizeOfSpace | convert_pets.js:92-94 | 'Nhỏ' iff the space score is 1, 'Lớn' iff it is 3, 'Trung bình' otherwise |
| ConvertPets.Slug | convert_pets.js:75 | the slug contains no whitespace (its value in SlugOfName and SlugOfTwoWords) |
| ConvertPets.Kind | convert_pets.js:89 | "Cat" iff cell 11 parses to exactly 1, otherwise "Dog" |
| ConvertPets.BuildPet | convert_pets.js:68-136 | no record iff the trimmed name cell is blank; otherwise id is the slug of cell 1, name is cell 1 with `_` turned into spaces, lifespan and care are cells 2 and 3, the prices are cells 4-6, priceMin and priceMax are the least and greatest digit runs of cells 4-6 (0 and 100 without digits), the avatar path is under the slug, the size/space agreement and the type rule hold, and the scores are parsed from cells 7-10 with defaults 2, 2, 2, 1 and never 0 |
| ConvertPets.SizeOfWrittenSpace | convert_pets.js:86-94 | a written non-zero space score k gives the size of k |
| ConvertPets.KindCells | convert_pets.js:89 | "1" is a cat; a blank cell and "0" are dogs |
| ConvertPets.SlugOfName | convert_pets.js:75 | the slug of the already trimmed name is its lower-cased form with whitespace runs collapsed to `_` |
| ConvertPets.SlugOfTwoWords | convert_pets.js:75 | two words with whitespace between them slug to the lower-cased words joined by one `_` |
| ConvertPets.PetsOfWrittenRows | convert_pets.js:60-136 | read from written rows, the records are built from the kept rows after the two headers |
| ConvertPets.Pets | convert_pets.js:66-136 | `rows.slice(2)` then map and filter: every record built from a row after the two headers is kept, and every kept record comes from such a row |
| BackendConvertPets.ParseCsv | backend/src/convert/convert_pets.js:20-51 | the character loop returns the reference tokeniser's rows |
| BackendConvertPets.SizeOfLabel | backend/src/convert/convert_pets.js:90-93 | 'Nhỏ' iff "small", 'Lớn' iff "large", 'Trung bình' for everything else |
| BackendConvertPets.Name | backend/src/convert/convert_pets.js:66-67 | cell 2 with every `_` turned into a space is whitespace + name + whitespace, and the name has no `_` and no edge whitespace |
| BackendConvertPets.Slug | backend/src/convert/convert_pets.js:70 | the slug contains no whitespace and is no longer than the name; a name without whitespace slugs to its lower-cased form |
| BackendConvertPets.SlugOfTwoWords | backend/src/convert/convert_pets.js:70 | two words with whitespace between them slug to the lower-cased words joined by one `_` |
| BackendConvertPets.BuildPet | backend/src/convert/convert_pets.js:64-117 | no record iff the name is blank; otherwise id is the slug of the name, type, lifespan and care are cells 1, 3 and 7, the prices are cells 8-10, priceMin and priceMax are the least and greatest digit runs of cells 8-10 (0 and 0 without digits), the path is `/assets/avatar/<id>.jpg`, the size is the label of cell 15, and the scores come from cells 11-14 with default 3 and never 0 |
| BackendConvertPets.UnderscoreOnlyName | backend/src/convert/convert_pets.js:66-67 | a name cell of only underscores and whitespace gives the blank name |
| BackendConvertPets.UnderscoreOnlyNameDropped | backend/src/convert/convert_pets.js:66-68 | such a row gives no record |
| BackendConvertPets.NoPriceDigits | backend/src/convert/convert_pets.js:78-81 | price cells without digits give 0 and 0 |
| BackendConvertPets.PetsOfWrittenRows | backend/src/convert/convert_pets.js:49-64 | read from written rows and an unterminated tail, the records come from every row after the header and the tail is lost |
| BackendConvertPets.Pets | backend/src/convert/convert_pets.js:62-117 | `rows.slice(1)` then map and filter: every record built from a row after the header is kept, and every kept record comes from such a row |
| PetFields.Get | convert_pets.js:70 | `(row[i] \|\| '').trim()`: "" past the end, otherwise the cell without its edge whitespace |
| PetFields.ParseInt | convert_pets.js:85-89 | parseInt without a radix: NaN unless the text holds a decimal digit, and negative only behind a '-' after the leading whitespace; ParseIntDecimal to ParseIntBarePrefix below pin its value on written numbers, signs, whitespace, hex prefixes and digit-free text |
| PetFields.ParseIntDecimal | convert_pets.js:85 | parseInt reads back any written integer, whatever non-digit text follows |
| PetFields.ParseIntNatural | convert_pets.js:85 | parseInt reads back a written natural number |
| PetFields.ParseIntNegative | convert_pets.js:85 | parseInt reads back a written negative number |
| PetFields.ParseIntSkipsSpaces | convert_pets.js:85 | leading whitespace does not change parseInt |
| PetFields.ParseIntNaN | convert_pets.js:85 | text that starts with no digit, sign or whitespace is NaN |
| PetFields.ParseIntHex | convert_pets.js:85 | "0x1F" parses to 31 |
| PetFields.ParseIntSignedHex | convert_pets.js:85 | "-0Xa" parses to -10 |
| PetFields.ParseIntBarePrefix | convert_pets.js:85 | "0x" without digits is NaN |
| PetFields.OrDefault | convert_pets.js:85-88 | `\|\| default`: NaN and 0 give the default, any other number itself; never 0 when the default is not |
| PetFields.WrittenScore | convert_pets.js:85-88 | a written non-zero score is read as itself, a blank cell as the default |
| PetFields.DigitRuns | convert_pets.js:106-109 | `match(/(\d+)/g)` read as numbers: no more runs than characters, and no run (the null match) exactly when the text holds no digit; the lemmas below give the runs' values and order |
| PetFields.DigitRunsSeparated | convert_pets.js:105-106 | the digit runs of two texts joined by a non-digit are the runs of each, in order |
| PetFields.PriceTextRuns | convert_pets.js:105-106 | the runs of the price cells joined by spaces are the runs of each cell, in order |
| PetFields.DigitRunsOfDecimal | convert_pets.js:106-109 | a written number is one digit run with its own value |
| PetFields.DigitRunsNone | convert_pets.js:106-108 | text without digits has no digit run |
| PetFields.SeqMin | convert_pets.js:110 | Math.min is an element and no element is below it |
| PetFields.SeqMax | convert_pets.js:111 | Math.max is an element and no element is above it |
| PetFields.PriceRange | convert_pets.js:107-112 | the bounds of the numbers, or the fallback pair when there are none; min ≤ max when the fallback is ordered |
| PetFields.PriceBounds | convert_pets.js:105-112 | priceMin and priceMax are the smallest and largest digit runs of the three price cells, or the fallback pair |
| PetFields.PriceBoundsNone | backend/src/convert/convert_pets.js:79-81 | without any digit the fallback pair is used |
| PetFields.CollapseSpaces | convert_pets.js:75 | `replace(/\s+/g, '_')` leaves no whitespace |
| PetFields.CollapseNoSpace | convert_pets.js:75 | text without whitespace is unchanged |
| PetFields.CollapseRun | convert_pets.js:75 | a whitespace run becomes one `_` |
| PetFields.Drop | convert_pets.js:66 | `rows.slice(n)`: the rows from index n on |
| PetFields.Collect | convert_pets.js:68-136 | map then filter: every built record is kept and every kept record comes from a row |
| PetFields.CollectAppend | convert_pets.js:136 | map-then-filter distributes over concatenation |
| PyJson.Truthy | a.py:15 | Python truth: None, False, 0 and empty strings, lists and dicts are false |
| PyJson.Store | a.py:47 | `d[k] = v` on a present key keeps the key order, changes only that entry, and `d[k]` is then v |
| PyJson.StoreSame | a.py:47 | storing a key's own value changes nothing |
| PyJson.StoreOther | a.py:47 | storing one key keeps every other key's value |
| PyJson.In | a.py:44 | `key in value` is key membership on a dict, element membership on a list and substring search on a string; it raises TypeError exactly on None, booleans and numbers |
| PyJson.GetItem | a.py:45 | `value[key]` succeeds exactly on a dict holding the key, with that key's value |
| PyJson.SetItem | a.py:47 | `value[key] = v` on a dict stores the key |
| ImagePaths.FindNone | a.py:22 | the search finds nothing iff the marker does not occur |
| ImagePaths.LastStart | a.py:23 | the split's last piece starts where the scan from i finds no further separator: at i when none is found, otherwise right after an occurrence |
| ImagePaths.LastPiece | a.py:23 | `split(sep)[-1]` is a suffix that holds no separator: the whole text when there is no separator, and otherwise the text right after an occurrence of it |
| ImagePaths.LastPieceWhole | a.py:23 | without the separator the last piece is the whole text |
| ImagePaths.LStrip | a.py:27 | `lstrip(c)` removes exactly the leading run of c |
| ImagePaths.Tail | a.py:22-27 | the part after the prefix is a suffix of the path that holds no `dog_images/`: the text right after an occurrence of the marker when there is one, otherwise the path without its leading slashes |
| ImagePaths.TailAfter | a.py:22-27 | the same for any non-empty marker |
| ImagePaths.NormalizePath | a.py:10-27 | "" stays ""; any other path becomes `/assets/dog_images/` followed by text, with no backslash left |
| ImagePaths.AfterMarker | a.py:19-24 | with the marker present: the prefix plus the last piece of the split, which is the text right after an occurrence of the marker and holds none, backslashes already turned into `/` |
| ImagePaths.WithoutMarker | a.py:19-27 | without the marker: the prefix plus the path without its leading slashes |
| ImagePaths.NormalizeIdempotent | a.py:10-27 | normalising twice is normalising once |
| ImagePaths.LastOfPrefixed | a.py:22-24 | a normalised path holds the marker, and the text after its last occurrence is the tail |
| ImagePaths.NormalizeImagePath | a.py:15-16 | a falsy value is returned as it is; a string is normalised; any other truthy value raises AttributeError |
| ImagePaths.UpdatePet | a.py:44-49 | a pet without `image_path` is unchanged and not counted; a change is counted iff the pet changed, and it only stores the normalised path |
| ImagePaths.Steps | a.py:43-49 | the loop as a fold: on success it keeps the item count, and the counter is at most the item count |
| ImagePaths.StepsSpec | a.py:43-49 | the loop fails iff some item fails; otherwise it keeps the item count, each item is its own update, and the counter is the number of reported changes |
| ImagePaths.ReportedChanged | a.py:41-49 | `changed` equals the number of items whose value differs |
| ImagePaths.UpdatePetTwice | a.py:44-49 | updating an updated pet changes nothing |
| ImagePaths.StepsTwice | a.py:43-49 | a second pass over idempotent steps changes nothing and counts 0 |
| ImagePaths.UpdateItemsTwice | a.py:43-49 | running the loop again on its output changes nothing and counts 0 |
| ImagePaths.Values | a.py:37 | `data.values()` in key order |
| ImagePaths.WithValues | a.py:37-47 | the dict with its values replaced, keys kept |
| ImagePaths.Normalized | a.py:34-49 | data that is neither a list nor a dict raises ValueError; otherwise the container keeps its size, and a dict keeps its keys |
| ImagePaths.RunSteps | a.py:41-49 | the loop with its counter computes the reference fold |
| ImagePaths.NormalizeAll | a.py:33-49 | the dispatch and the loop compute the reference result |
| FixImg.Title | fix_img.py:14 | title-casing keeps the length |
| FixImg.TitleFromAt | fix_img.py:14 | character i is unchanged when uncased, lower-cased after a cased character, upper-cased otherwise |
| FixImg.TitleAt | fix_img.py:14 | the same rule for the whole string |
| FixImg.TitleKeepsCased | fix_img.py:14 | title-casing keeps which characters are letters |
| FixImg.TitleIdempotent | fix_img.py:14 | title-casing twice is title-casing once |
| FixImg.TitleTwoWords | fix_img.py:14 | "sHiBa-iNU" becomes "Shiba-Inu" |
| FixImg.FixField | fix_img.py:13-18 | on a dict whose field is a string, the field is replaced by its fixed form; any other change is impossible |
| FixImg.Underscored | fix_img.py:17-18 | each `-` becomes `_`, every other character is kept, and no `-` remains |
| FixImg.FixItem | fix_img.py:11-18 | a dict item stays a dict and is always processed |
| FixImg.FixItemKeeps | fix_img.py:11-18 | the keys and their order are kept, and fields other than name and image_path are untouched |
| FixImg.FixItemStrings | fix_img.py:13-18 | string name and image_path become their title-cased and underscored forms |
| FixImg.FixFieldTwice | fix_img.py:13-18 | an idempotent fix applied twice is applied once |
| FixImg.UnderscoredIdempotent | fix_img.py:18 | rewriting `-` twice is rewriting it once |
| FixImg.TitleIdempotentAll | fix_img.py:14 | title-casing is idempotent on every string |
| FixImg.FixItemTwice | fix_img.py:11-18 | fixing a fixed item changes nothing |
| FixImg.NameSurvives | fix_img.py:13-18 | the image_path rewrite does not undo the name rewrite |
| FixImg.Iterate | fix_img.py:11 | `for item in data` fails exactly on None, booleans and numbers, and walks a list's items |
| FixImg.MapAll | fix_img.py:11-18 | the loop as a fold: on success it keeps the item count |
| FixImg.MapAllSpec | fix_img.py:11-18 | the loop fails iff some item fails, and otherwise keeps the item count and fixes each item |
| FixImg.Fixed | fix_img.py:11-18 | a list fails iff some item fails and otherwise keeps its length, each item being FixItem's result; any value that iterates fails iff one of its items (a dict's keys, a string's characters) fails, and every failure is TypeError; a non-list that iterates and does not raise is unchanged; non-iterables raise TypeError |
| FixImg.StringItem | fix_img.py:11-14 | a string item raises exactly when it contains "name" or "image_path", and is otherwise left as it is |
| FixImg.DictWithNameKeyRaises | fix_img.py:11-14 | `{"name": "x"}` raises TypeError, because its key "name" is iterated and `"name" in "name"` holds |
| FixImg.DictItemsFixed | fix_img.py:11-18 | a list of dicts is processed item by item without error |
| FixImg.FixedTwice | fix_img.py:11-18 | running the script on its own output changes nothing |
| FixImg.FixEach | fix_img.py:11-18 | the in-place loop computes the reference map |
| FixImg.FixImages | fix_img.py:11-18 | the whole script computes the reference result |

## Left out

- File and console I/O is not modelled. This covers `pd.read_csv`, `read_excel` and `to_csv`; `fs.readFile`, `writeFile` and `mkdirSync`; `json.load` and `dump`; `__main__` path selection; and every print. Each transform starts from an in-memory string, table or JSON value.
- How `read_csv` builds a frame is not modelled. A missing `STT` or breed column raises inside the `try` and is caught, which the model gives as `ReadError`. Read errors themselves and pandas' type inference are left out.
- pandas floats are left out. A numeric cell is an integer, and `str()` of a cell is its text or decimal numeral. pandas' `1.0` formatting of numeric columns that hold NaN is not captured.
- When the price relabelling gives two columns one label, pandas continues with duplicated columns. The model stops with the `DuplicateLabels` outcome instead, because a frame is a list of distinct labels.
- The relabelling is modelled on labels, on the positional rows. pandas' index alignment is abstracted away.
- Case mapping and whitespace cover the ASCII letters and the Latin-1 letter pairs, and ASCII whitespace for `\s`, `strip()` and `trim()`. Vietnamese letters outside Latin-1 (such as "Ư" or "Đ") are treated as uncased, because full Unicode case tables are outside the model. The Latin-1 letters without a Latin-1 case partner (ß, µ, ÿ) are uncased too; Python treats them as cased, so `title()` word boundaries differ around them (`"straße".title()` is "Straße" in Python and "StraßE" in the model). Python's `strip()` also removes the separators \x1c-\x1f, which the model's whitespace leaves out.
- JavaScript strings are UTF-16 and index code units; the model indexes characters. This only matters for characters outside the Basic Multilingual Plane.
- JavaScript numbers are doubles. `parseInt` and `Number` of digit runs longer than 2^53 lose precision in the source. `Math.min(...nums)` can also fail on very many arguments. Neither is modelled.
- A JSON number is an integer in the model. Floats, and what `json.load` does with duplicate keys, are left out.
- The unused `parsePrice`/`priceMin` in convert_pets.js:97-103 is dead code and is left out.
- The training scripts, the inference server, the router and the static pet list are not part of this model.
- PetFields.RadixValue: it is total, but it is only meaningful on digit characters.
- PetFields.DigitRuns: its own contract bounds the number of runs and says when there are none, not their values. DigitRunsSeparated, PriceTextRuns and DigitRunsOfDecimal state those.
- FixImg.Title: its own contract only keeps the length. TitleFromAt and TitleAt state the per-character rule.
- PetMetadata.IsCat: its own contract only bounds the flag to 0 or 1. Its body is the test for "mèo" in the breed and care text, and IsCatAnyCasing states its letter-case behaviour.
- PetMetadata.ScoreEnergy: its own contract states only the range; the full case split is in EnergyCases.
- PetMetadata.ScoreSpace: its own contract states only the range; the full case split is in SpaceCases.
- PetMetadata.ScoreGrooming: its own contract states only the range; the full case split is in GroomingCases.
- PetMetadata.ScoreKidFriendly: its own contract states only the range; the full case split is in KidCases.
- ImagePaths.Normalized: for a list, its own contract states the length only. The per-item result is in StepsSpec.
- a.py updates the dicts in place through aliases (`data.values()` and the list items). The model rebuilds the container with the updated values. A dict appearing twice in the data is not possible after `json.load`.
