# Burnout survey pipeline: clean, encode, rank, summarise

A Dafny model of the analysis core of `data_visuals.py`, a notebook-style
script over a burnout survey (age, free-text gender, a total burnout score
and the three subscales AMF, RFC and RPD). The model covers the four pure
steps between loading the spreadsheet and drawing the charts:

1. **Gender normaliser** (`Gender`): the `Genero` column is lower-cased and
   replaced, as a whole string, through the ten-entry table `mapeo_genero`.
   Labels that are not keys pass through lower-cased; a missing cell stays
   missing.
2. **One-hot encoding and selection** (`Encoding`): `get_dummies` creates one
   indicator column `Genero_<category>` per category present. The seven
   columns `Edad, Genero_Masculino, Genero_Femenino, Total, AMF, RFC, RPD`
   are then selected, which raises a `KeyError` when an indicator column was
   never created.
3. **Correlation ranking** (`Correlation`, `Ranking`): the demographics ×
   test-results block of a correlation matrix is stacked into long form.
   Undefined (NaN) cells are dropped. Each value is replaced by its absolute
   value and given a polarity. The rows are sorted by non-increasing value
   and the first twenty are kept.
4. **Band table and contributions** (`Bands`, `Contribution`): the four
   severity bands Nulo [0,29], Leve [29,36], Moderado [36,46] and Elevado
   [46,80] each get `segment_area / total_area * 100`, where `total_area` is
   taken over [0,80]. Each subscale gets `mean(sub) / mean(Total) * 100`.

The correlation matrix is an input (a function from column pairs to a real
or "undefined"). The area under the density curve is also an input (a
function from intervals to reals), constrained where needed to be additive
and non-negative. Scores are `real`. The results of the unguarded
contribution division are modelled as IEEE values (`Contribution.Float`:
finite, ±infinity or NaN).

Notes on the script's behaviour:
- Gender labels are lower-cased and looked up in a fixed table of ten
  spellings. There is no catch-all category and no whitespace trimming, so
  only the trailing-space spellings the table lists are mapped: "hombre "
  stays "hombre ".
- The ranking takes the demographics × test-result block of the correlation
  matrix and keeps correlations of magnitude 1. It keeps at most twenty rows
  (`head(20)`); the block has at most twelve cells, so none are dropped. Its
  sort is pandas' default quicksort, which is not stable.
- A zero total area raises `ZeroDivisionError`, because `integrate.quad`
  returns Python floats. A zero mean total gives infinity or NaN, because the
  means are numpy floats.
- Records are analysed as loaded; data_visuals.py filters nothing by gender,
  age or score.

## Model

| member | source | states |
|---|---|---|
| Gender.Lower | data_visuals.py:34 | lower-casing keeps the length and maps each character on its own: an upper-case letter becomes the lower-case letter at the same alphabet position, and every other character is kept; so no upper-case letter is left and lower-case strings are unchanged |
| Gender.MappingIsKeyGroups | data_visuals.py:37-48 | the table's keys are exactly four male spellings and six female spellings, disjoint, each sent to its category |
| Gender.Normalize | data_visuals.py:34-51 | the result is "Masculino" exactly when the lower-cased label is a male key, "Femenino" exactly when it is a female key, and otherwise the lower-cased label itself |
| Gender.NormalizeCell | data_visuals.py:34-51 | a missing cell stays missing; a text cell is normalised |
| Gender.NoUnknownCategory | data_visuals.py:37-51 | the output is canonical exactly when the lower-cased label is a key; every other output is the lower-cased label, so no "unknown" category exists |
| Gender.NormalizeIgnoresCase | data_visuals.py:34-51 | normalising the lower-cased label gives the same result as normalising the label |
| Gender.NormalizeIdempotent | data_visuals.py:34-51 | normalising twice equals normalising once |
| Gender.TrailingSpaceGap | data_visuals.py:37-48 | "Hombre " and "MUJER " pass through as "hombre " and "mujer "; "Femenino " and "HOMBRE" map to their categories |
| Survey.SelectedIsFramePositions | data_visuals.py:62-65 | the selection is the seven columns, each once, in frame order |
| Survey.GroupsDisjoint | data_visuals.py:62-63 | no column is both a demographic and a test result |
| Encoding.DummyColumnExists | data_visuals.py:61 | the indicator column of a category exists exactly when some record carries that category |
| Encoding.Indicator | data_visuals.py:61 | an indicator is 0 or 1, and 1 exactly when the record carries the category |
| Encoding.NormalizeRecords | data_visuals.py:34-51 | the gender column is replaced cell by cell by its normalised value, the same number of records, every other field unchanged |
| Encoding.Encode | data_visuals.py:34-65 | normalisation then selection: a failure names one or two labels, all indicator labels; a success has one row per raw record, carrying that record's age and four scores unchanged and at most one indicator set |
| Encoding.Select | data_visuals.py:61-65 | selection succeeds exactly when both canonical categories occur; a failure names exactly the absent indicator columns, each once and nothing else; on success each row copies age and scores and has masculino + femenino <= 1, each indicator 1 exactly for its category |
| Encoding.EncodeSucceedsFromRaw | data_visuals.py:34-65 | from raw labels: encoding succeeds exactly when some label lower-cases to a male key and some label to a female key |
| Encoding.EncodeIndicatorsFromRaw | data_visuals.py:34-65 | from raw labels: a row's indicators sum to 1 exactly when its lower-cased label is a key of the table, else to 0 |
| Encoding.EmptyDataFails | data_visuals.py:61-65 | an empty sequence of typed records creates no indicator column, so the selection raises KeyError naming both indicator columns |
| Correlation.StackRow | data_visuals.py:100 | one stacked row holds exactly the defined cells of that row, in column order |
| Correlation.Stack | data_visuals.py:97-100 | the long form holds exactly the defined cells of the block, at most rows × columns of them, in row-major order without repeats |
| Correlation.LongForm | data_visuals.py:97-101 | at most 12 entries, each pairing a demographic with a test result and carrying that cell's defined value, every defined cell present, row-major order; never a self-pair or the Masculino/Femenino pair |
| Correlation.UndefinedMatrixStacksEmpty | data_visuals.py:97-100 | an all-undefined matrix has an empty long form |
| Correlation.TagAsWritten | data_visuals.py:104-107 | as written: the value becomes its absolute value and the polarity is '+' exactly when the correlation is non-zero, whatever its sign |
| Correlation.Tag | data_visuals.py:104-107 | corrected: the value becomes its absolute value and the polarity is '+' exactly when the signed correlation is positive |
| Correlation.AsWrittenLosesSign | data_visuals.py:104-107 | a correlation of -0.5 is tagged '+' as written and '-' when corrected |
| Correlation.TagAll | data_visuals.py:104-107 | corrected, column-wide: one entry per long-form row, in order, each the corrected tagging of its pair |
| Correlation.TagAllAsWritten | data_visuals.py:104-107 | as written, column-wide: one entry per long-form row, in order, each tagged as the script does |
| Correlation.RetagOfTag | data_visuals.py:104-107 | re-deriving the polarity from the stored absolute value turns the corrected entry into the as-written one |
| Correlation.RetagAllOfTagAll | data_visuals.py:104-107 | the same holds for the whole long form, entry by entry |
| Ranking.Insert | data_visuals.py:110 | inserting into a sorted list keeps it sorted by non-increasing value and adds exactly one entry |
| Ranking.SortDesc | data_visuals.py:110 | the sort returns a permutation of its input ordered by non-increasing value |
| Ranking.TopN | data_visuals.py:110 | head(n) of the sorted list has min(n, length) entries, is sorted, is a sub-multiset of the input, and is all of it when n covers the length |
| Ranking.TopNKeepsLargest | data_visuals.py:110 | no entry left out of the top n has a larger value than an entry kept |
| Ranking.Rank | data_visuals.py:104-110 | tagging, sorting and head(20) give min(20, n) entries, sorted, drawn from the tagged long form, and all of it when n <= 20 |
| Ranking.RankAsWritten | data_visuals.py:104-110 | the same for the script's tagging |
| Ranking.Top20 | data_visuals.py:97-110 | the ranked table is a sorted permutation of the whole tagged long form (head(20) drops nothing, as there are at most 12 rows); every value is the absolute value of its defined cell; polarity is '+' exactly for positive cells |
| Ranking.Top20AsWritten | data_visuals.py:97-110 | the script's table is a sorted permutation of its whole tagged long form; each value is the absolute value of its defined cell and the polarity is '+' exactly for non-zero values, whatever their sign |
| Ranking.RankAsWrittenIsRetagged | data_visuals.py:104-110 | the script's ranking equals the corrected ranking with each polarity re-derived from the absolute value: same rows, order and values |
| Bands.SegmentsTileDomain | data_visuals.py:131-134 | the four bands start at 0, each ends where the next starts (29, 36, 46), and the last ends at 80 |
| Bands.TilesOrdered | data_visuals.py:131-134 | a tiling runs forward: its start is not after its end |
| Bands.TilingArea | data_visuals.py:137-144 | for an additive area the band areas of a tiling add up to the area of the whole interval |
| Bands.SharesOf | data_visuals.py:140-146 | one share per band, in order, with its bounds and name, and percentage × total area = 100 × band area |
| Bands.Percentages | data_visuals.py:137-146 | the division raises exactly when the total area over [0,80] is zero; otherwise each band's percentage × total area = 100 × band area |
| Bands.SharesSum | data_visuals.py:140-146 | the summed percentages times the total equal 100 times the summed band areas |
| Bands.PercentagesSumTo100 | data_visuals.py:131-146 | for an additive area with non-zero total, the four percentages add up to 100 |
| Bands.BandWithinTotal | data_visuals.py:137-144 | for a non-negative additive area a band inside [0,80] has an area between 0 and the total |
| Bands.PercentagesBounded | data_visuals.py:131-146 | for a non-negative additive area with non-zero total every percentage lies in [0,100] |
| Contribution.Mean | data_visuals.py:181-183 | the mean of an empty column is NaN; otherwise it is finite and mean × count = sum |
| Contribution.Divide | data_visuals.py:187 | NaN propagates; a finite quotient times the divisor gives the dividend; over zero the result is +inf, -inf or NaN by the dividend's sign |
| Contribution.Times100 | data_visuals.py:187 | finite values are scaled by 100; infinities and NaN are unchanged |
| Contribution.Ratio | data_visuals.py:187 | a contribution is NaN with no records; finite with value 100 × sum(sub) / sum(Total) when sum(Total) ≠ 0; +inf, -inf or NaN by the sign of sum(sub) when sum(Total) = 0 |
| Contribution.Contributions | data_visuals.py:180-187 | exactly three entries, AMF, RPD, RFC in that order, each the ratio of its subscale |
| Contribution.SumOfSubscales | data_visuals.py:180-187 | when every total is the sum of its subscales, the summed total is the sum of the summed subscales |
| Contribution.ContributionsOfWhole | data_visuals.py:180-187 | when the summed total is non-zero and equals the summed subscales, the three contributions add up to 100 |
| Contribution.ContributionsSumTo100 | data_visuals.py:180-187 | when every record's total is the sum of its subscales and the mean total is non-zero, the three contributions add up to 100 |
| Contribution.TwoRecordExample | data_visuals.py:180-187 | totals 40 and 20 with AMF 20 and 5 give an AMF contribution of 125/3 (about 41.67) |

## Findings

| source | as written | input that shows it | evidently intended | confidence | as-written member | corrected member |
|---|---|---|---|---|---|---|
| data_visuals.py:104-107 | the polarity is computed after the correlation column has been replaced by its absolute value, so it is '+' for every non-zero correlation | a correlation of -0.5 between Edad and Total is tagged '+' | polarity '+' for positive and '-' for negative correlations, taken from the signed value | high; not executed | Correlation.TagAsWritten | Correlation.Tag |

The as-written behaviour is exhibited by `Correlation.AsWrittenLosesSign` and
carried through the ranked table by `Ranking.RankAsWrittenIsRetagged` and
`Ranking.Top20AsWritten`. `Ranking.Top20` uses the corrected tag.

## Left out

- Loading the spreadsheet and trimming column names (data_visuals.py:23-24) is file I/O. Records arrive as an already-loaded sequence.
- Pearson correlation (`df_seleccionado.corr()`, data_visuals.py:66) is library numerics. The matrix is an input.
- The kernel density estimate and `integrate.quad` over `np.interp` (data_visuals.py:124-128, 137, 144) are foreign floating-point routines. They are replaced by an area function. Additivity and non-negativity are assumed only where a lemma needs them.
- All plotting: the heatmap and its rectangle, `fill_between`, text, legends, `savefig` and `show` (data_visuals.py:69-89, 121-170, 190-210). This is presentation and file output. The value counts display (data_visuals.py:54) is left out too.
- Encoding.Select: assumes pandas reads the Genero column as text and the age and score columns as numbers. If every Genero cell is empty, or genders are coded as numbers, `.str.lower()` at data_visuals.py:34 raises AttributeError; the model instead treats such cells as missing and ends in a KeyError for both indicator columns. A sheet with only a header row loads every column as text, so `get_dummies` would also encode away Edad and the scores and the KeyError would name all seven labels; the model's records are always typed, so it names only the indicator columns.
- Gender.Lower: lower-cases ASCII letters only; Python's `str.lower` also folds non-ASCII letters.
- Scores are exact reals. Floating-point rounding, overflow and signed zeros are not modelled.
- Missing numeric cells (NaN ages or scores) are not modelled. Every record carries all five numbers.
- Other text columns of the sheet would get their own indicator columns from `get_dummies`. They are never selected and are not modelled.
- Ranking.SortDesc: fixes one order among equal values. pandas' default sort is not stable, so its contract promises only sortedness and permutation, which hold for any tie order.
