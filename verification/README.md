# lofreq pileup-column decoder in Dafny

This project models the pileup-column decoder of lofreq's Python helper
module `src/lofreq_python/lofreq/sam.py` and proves properties of it. It
also models the header and Bonferroni-factor helpers of the same module.

`PileupColumn` turns one line of `samtools mpileup` output into a
per-base, per-strand quality histogram and a consensus base.
`LoFreqPileupColumn` does the same for the compact lofreq_samtools line
format.

## Modules

- `text.dfy`, module `Text`: the Python 2 `str` operations the decoders rely on.
  - `split(sep)`, whitespace `split()`, `rstrip()`, `replace`, `count`, `startswith`, `upper`/`lower` on ASCII, and `int()` on decimal text.
  - The `tokenizer` generator, as a method with a loop.
- `evidence.dfy`, module `Evidence`: the evidence store `_bases_and_quals`.
  - The store is ten histograms, one per base letter A C G T N in upper case (forward strand) and lower case (reverse strand), each mapping a quality to a count.
  - Recording calls into the store.
  - The queries `get_counts_for_base`, `get_all_base_counts` and `get_base_and_qual_hist`.
- `markup.dfy`, module `Markup`: cleaning the read-base string.
  - Quality decoding (Phred+33).
  - Expansion of `.` and `,` to the reference base.
  - `rem_startend_markup`.
  - The `rem_indel_markup` loop.
  - The lock-step removal of `*` placeholders and their qualities.
- `consensus.dfy`, module `Vote`: `determine_cons`, the quality-weighted vote over A, C, G and T.
  - The weight `1 - phredqual_to_prob(q)` is a parameter `weight: int -> real`, so every property holds for any weight.
- `column.dfy`, module `Column`: the column object.
  - The class `PileupColumn` has the object's fields and its two `parse_line` methods.
  - Each method is proved against a function from the object's state before the call (a `Column` value) to the outcome and the state after it.
  - A Python exception is a `Fail` outcome. The state it carries is the object as the exception leaves it, with every field assigned before the raise kept.
- `column_props.dfy`, module `ColumnFacts`: what a parse guarantees: when it succeeds, what it stores, which error it raises, and the coverage bound.
- `header.dfy`, module `Header`: the header and factor helpers.
  - `sq_list_from_header` and `len_for_sq`.
  - The summing loop of `sum_chrom_len`.
  - `auto_bonf_factor` over already-read inputs.
  - The factor of `auto_bonf_factor_from_depth`.

## Model

| member | source | states |
|---|---|---|
| Text.Upper | src/lofreq_python/lofreq/sam.py:201 | `str.upper()`: same length, each character mapped by the ASCII upper-case mapping, no lower-case letter left |
| Text.Lower | src/lofreq_python/lofreq/sam.py:214 | `str.lower()`: same length, each character mapped by the ASCII lower-case mapping, no upper-case letter left |
| Text.Remove | src/lofreq_python/lofreq/sam.py:262 | `replace(c, '')`: no `c` left, exactly `count(c)` characters fewer, every other character kept |
| Text.RemoveOne | src/lofreq_python/lofreq/sam.py:262 | one character survives `replace(c, '')` exactly when it is not `c` |
| Text.RemoveAppend | src/lofreq_python/lofreq/sam.py:262 | deleting works piece by piece, so the survivors are the other characters in their original order |
| Text.Replace | src/lofreq_python/lofreq/sam.py:213-214 | `replace(c, t)`: with a one-character `t`, the same length with exactly the `c` positions replaced; unchanged when `c` is absent |
| Text.IndexOf | src/lofreq_python/lofreq/sam.py:405 | `s.index(c)`: a position holding `c` with no `c` before it |
| Text.Split | src/lofreq_python/lofreq/sam.py:194 | `split(sep)` always gives at least one piece, even for the empty string |
| Text.SplitCount | src/lofreq_python/lofreq/sam.py:194 | `split(sep)` gives one more piece than there are separators |
| Text.SplitPieces | src/lofreq_python/lofreq/sam.py:194 | no piece of `split(sep)` contains the separator |
| Text.SplitWhole | src/lofreq_python/lofreq/sam.py:194 | a string without the separator splits into itself alone |
| Text.SplitPrefix | src/lofreq_python/lofreq/sam.py:194 | a separator-free piece followed by the separator is the first piece, and the rest splits on its own |
| Text.JoinSplit | src/lofreq_python/lofreq/sam.py:194 | joining the pieces of `split(sep)` with the separator gives the line back |
| Text.SplitJoin | src/lofreq_python/lofreq/sam.py:194 | splitting separator-free pieces joined by the separator gives the pieces back |
| Text.SplitStep | src/lofreq_python/lofreq/sam.py:405-410 | the first piece ends at the first separator, and the rest is the split of what follows it |
| Text.Tokenize | src/lofreq_python/lofreq/sam.py:400-410 | `tokenizer(s, c)` yields exactly the pieces of `s.split(c)`, in order |
| Text.WordLen | src/lofreq_python/lofreq/sam.py:551 | the leading run of non-whitespace characters is maximal |
| Text.Words | src/lofreq_python/lofreq/sam.py:551 | `split()`: every word is non-empty and free of whitespace |
| Text.WordsJoin | src/lofreq_python/lofreq/sam.py:551 | words joined by a whitespace character split back into those words |
| Text.RStripMeaning | src/lofreq_python/lofreq/sam.py:421 | `rstrip()` keeps a prefix that is empty or ends in a non-space, and drops only whitespace |
| Text.RStrip | src/lofreq_python/lofreq/sam.py:421 | `line.rstrip()`; its promise is stated by `Text.RStripMeaning` |
| Text.LStripMeaning | src/lofreq_python/lofreq/sam.py:200-202 | the leading whitespace `int()` skips: what is kept is a suffix that is empty or starts with a non-space, and everything dropped is whitespace |
| Text.ShowNat | src/lofreq_python/lofreq/sam.py:200 | a natural number's decimal text is non-empty and all digits |
| Text.DigitsShowNat | src/lofreq_python/lofreq/sam.py:200 | the digits of a natural number's decimal text have that number as their value |
| Text.ParseIntShow | src/lofreq_python/lofreq/sam.py:200 | `int()` of a natural number's decimal text gives the number back |
| Text.ParseInt | src/lofreq_python/lofreq/sam.py:200-202 | `int()`: surrounding whitespace, an optional sign, then decimal digits, else a `ValueError`; `Text.ParseIntShow` proves it inverts decimal rendering |
| Evidence.ValidLetter | src/lofreq_python/lofreq/sam.py:236 | a letter whose upper-case form is in `VALID_BASES` is exactly one of the ten store keys |
| Evidence.Record | src/lofreq_python/lofreq/sam.py:239 | recording a call never adds or removes a store key |
| Evidence.Fill | src/lofreq_python/lofreq/sam.py:234-239 | the histogram loop keeps exactly the ten store keys |
| Evidence.Bump | src/lofreq_python/lofreq/sam.py:239 | `hist[q] = hist.get(q, 0) + 1`: quality `q` gains one and no other quality changes |
| Evidence.TotalBump | src/lofreq_python/lofreq/sam.py:239 | one recorded call adds exactly one to the histogram's total |
| Evidence.FillEntries | src/lofreq_python/lofreq/sam.py:234-239 | after the histogram loop, each (letter, quality) count has grown by the number of positions holding that letter and quality |
| Evidence.FillTotals | src/lofreq_python/lofreq/sam.py:234-239 | each letter's total has grown by the number of times that exact letter (with its case) occurs in the cleaned bases |
| Evidence.FillEvidenceTotal | src/lofreq_python/lofreq/sam.py:234-239 | the whole store grows by the number of cleaned bases whose upper-case form is valid; other letters are skipped |
| Evidence.TotalOverRecord | src/lofreq_python/lofreq/sam.py:239 | recording a call under one letter adds one to a total over letters exactly when that letter is among them |
| Evidence.Merge | src/lofreq_python/lofreq/sam.py:390-395 | the merged histogram's qualities are the union, and each count is forward plus reverse with an absent quality counted 0 |
| Evidence.Collapse | src/lofreq_python/lofreq/sam.py:383-397 | the strand-collapsed store has only upper-case keys, each holding the forward plus the reverse count per quality |
| Evidence.BaseAndQualHist | src/lofreq_python/lofreq/sam.py:372-397 | `get_base_and_qual_hist`: the store itself when strands are kept, else the strand-collapsed store |
| Evidence.CountsForBase | src/lofreq_python/lofreq/sam.py:328-354 | `get_counts_for_base` gives a (forward, reverse) pair exactly when strands are kept, else one total |
| Evidence.AllBaseCountsMeaning | src/lofreq_python/lofreq/sam.py:357-369 | `get_all_base_counts` gives each base's forward and reverse calls at quality `min_qual` or more; unstranded, their sum, which is the count in the strand-collapsed histogram |
| Evidence.CountsForBaseCollapsed | src/lofreq_python/lofreq/sam.py:341-354 | the unstranded count is forward plus reverse, and equals the count at quality at least `min_qual` in the strand-collapsed histogram |
| Evidence.CountsForBaseCaseless | src/lofreq_python/lofreq/sam.py:342-348 | a base asked for in lower case counts the same as in upper case |
| Evidence.CountsForUnknownBase | src/lofreq_python/lofreq/sam.py:335-339 | a letter that is not a store key counts `(0, 0)`, or `0` without strands |
| Evidence.CountsForBaseMonotone | src/lofreq_python/lofreq/sam.py:343-349 | raising `min_qual` never raises a count |
| Evidence.SumWhereMonotone | src/lofreq_python/lofreq/sam.py:343-344 | a histogram's count at quality at least `hi` is at most its count at quality at least `lo` when `lo <= hi` |
| Evidence.SumWhereAdd | src/lofreq_python/lofreq/sam.py:393-395 | the filtered sum of a merged histogram is the sum of the two strands' filtered sums |
| Markup.DecodeQualsAppend | src/lofreq_python/lofreq/sam.py:207 | the Phred+33 decoding of a concatenation is the concatenation of the decodings |
| Markup.DecodeQualsInjective | src/lofreq_python/lofreq/sam.py:207 | two quality strings that decode alike are equal: decoding loses nothing |
| Markup.ExpandMatches | src/lofreq_python/lofreq/sam.py:213-214 | with a one-letter reference, `.` becomes the upper-case reference, `,` the lower-case one, and everything else stays |
| Markup.StripStarts | src/lofreq_python/lofreq/sam.py:266 | `re.sub('\^.', '')`: an even number of characters removed, no `^x` pair left, no new characters, unchanged without `^` |
| Markup.StripStartsPrefix | src/lofreq_python/lofreq/sam.py:266 | text without a `^` passes through the substitution unchanged, whatever follows it |
| Markup.StripStartsMark | src/lofreq_python/lofreq/sam.py:266 | the first `^x` pair is deleted, nothing before it changes, and the scan resumes right after it |
| Markup.StripStartEnd | src/lofreq_python/lofreq/sam.py:248-272 | no `$` left; `num_read_ends` is the number of `$`; the removed length is the ends plus twice `num_read_starts`; no start mark is left |
| Markup.DollarMappingQualityLost | src/lofreq_python/lofreq/sam.py:262-266 | since `$` is removed first, the start mark `^$` before a base loses its mapping-quality byte, and the base is eaten as the mark's second character |
| Markup.FindIndel | src/lofreq_python/lofreq/sam.py:299 | `re.search('[-+][0-9]+')`: the leftmost sign followed by a digit, or none anywhere |
| Markup.DigitsEnd | src/lofreq_python/lofreq/sam.py:299 | the match's digit run is maximal |
| Markup.CutIndel | src/lofreq_python/lofreq/sam.py:308-311 | one pass keeps the text before the match, removes at least two characters and adds none |
| Markup.CutIndelSpan | src/lofreq_python/lofreq/sam.py:308-311 | one pass removes the sign, all its digits and then N more characters (fewer if the string ends), keeping a suffix |
| Markup.CutIndelCount | src/lofreq_python/lofreq/sam.py:303-311 | a pass at a `+` removes at least that `+` |
| Markup.StripIndels | src/lofreq_python/lofreq/sam.py:298-311 | the loop ends with no `[-+][0-9]` match left, no longer than the input and with no new characters; `num_ins_events` is at most the number of `+` |
| Markup.StripIndelsStep | src/lofreq_python/lofreq/sam.py:303-311 | each pass adds one to `num_ins_events` exactly when its sign is `+` |
| Markup.StripIndelsNoSign | src/lofreq_python/lofreq/sam.py:298-301 | without a sign the loop changes nothing and counts nothing |
| Markup.KeptQuals | src/lofreq_python/lofreq/sam.py:321-322 | the kept qualities never outnumber the kept bases, and match them when there are enough qualities |
| Markup.Zip | src/lofreq_python/lofreq/sam.py:321 | Python 2 `zip`: as long as the shorter input, pairing entries at the same position |
| Markup.LockStep | src/lofreq_python/lofreq/sam.py:321-323 | the kept (base, quality) pairs are exactly the non-`*` pairs of the truncating `zip` |
| Markup.KeptQualsLength | src/lofreq_python/lofreq/sam.py:319-323 | with enough qualities, both outputs have as many entries as bases that are not `*` |
| Markup.KeptQualsPrefix | src/lofreq_python/lofreq/sam.py:321 | qualities past the last base are never used |
| Markup.KeptQualsAll | src/lofreq_python/lofreq/sam.py:321-322 | with no `*` and equal lengths, every quality is kept |
| Markup.Clean | src/lofreq_python/lofreq/sam.py:213-221 | the cleaned bases hold no `*` and no `$`, and never have fewer entries than the cleaned qualities |
| Markup.CleanExpanded | src/lofreq_python/lofreq/sam.py:220-221 | once `.` and `,` are expanded, the markup steps leave no `*` and no `$`, and never more qualities than bases |
| Markup.CleanWithoutMarkup | src/lofreq_python/lofreq/sam.py:213-221 | bases without any markup pass through unchanged, with all counters zero |
| Markup.CleanMixedColumn | src/lofreq_python/lofreq/sam.py:213-221 | `.+2AG,-1A` over reference `G` cleans to `Gg` with one insertion, no deletions and the first two qualities |
| Markup.ExpandMixedColumn | src/lofreq_python/lofreq/sam.py:213-214 | `.+2AG,-1A` over `G` expands to `G+2AGg-1A` |
| Markup.StripMixedColumn | src/lofreq_python/lofreq/sam.py:298-311 | the indel loop turns `G+2AGg-1A` into `Gg`, counting one insertion |
| Vote.ScoreIgnoresLowQualities | src/lofreq_python/lofreq/sam.py:121-136 | a base's score depends only on its counts and weights above quality 2 |
| Vote.MaxIndex | src/lofreq_python/lofreq/sam.py:139-146 | the top of the ascending sort is a largest score |
| Vote.RunnerUp | src/lofreq_python/lofreq/sam.py:139-141 | the second entry from the end is a score of another base, and no other base scores more |
| Vote.PickLeader | src/lofreq_python/lofreq/sam.py:139-146 | the vote names a base exactly when that base leads every other by at least 1e-6, and then names that base; it is never `-` |
| Vote.Pick | src/lofreq_python/lofreq/sam.py:139-146 | the sort-and-compare step of `determine_cons`; `Vote.PickLeader` states its promise |
| Vote.ConsensusLeader | src/lofreq_python/lofreq/sam.py:110-151 | `determine_cons` over the strand-collapsed store is `N` or the unique leader, and never `-` |
| Vote.Consensus | src/lofreq_python/lofreq/sam.py:110-151 | `determine_cons`; `Vote.ConsensusLeader` and `Vote.ConsensusIgnoresLowQualities` state its promises |
| Vote.ConsensusIgnoresLowQualities | src/lofreq_python/lofreq/sam.py:129-134 | calls of quality 2 or below, their weight and their strand never change the consensus |
| Vote.CollapsedScoreAgrees | src/lofreq_python/lofreq/sam.py:118-134 | a base's score over the collapsed store sees only its calls above quality 2, whichever strand they came from |
| Vote.EmptyColumnConsensus | src/lofreq_python/lofreq/sam.py:139-143 | with no calls all scores tie and the vote is `N` |
| Column.Locus | src/lofreq_python/lofreq/sam.py:198-202 | the chromosome is stored first; the rest succeeds exactly when position and coverage are integers, storing the 0-based coordinate and the upper-cased reference; nothing else changes |
| Column.ConsOrRef | src/lofreq_python/lofreq/sam.py:241-244 | the fallback to the reference base; `ColumnFacts.GenericConsensus` states the promise |
| Column.GenericParse | src/lofreq_python/lofreq/sam.py:154-244 | the generic `parse_line`, success or exception, keeps exactly the ten store keys |
| Column.Tally | src/lofreq_python/lofreq/sam.py:222-244 | the length check, histogram loop and vote keep exactly the ten store keys |
| Column.RecordPairs | src/lofreq_python/lofreq/sam.py:436-440 | the pair loop, even when it raises part way, keeps exactly the ten store keys |
| Column.PairField | src/lofreq_python/lofreq/sam.py:435-447 | field 4 and its coverage check keep exactly the ten store keys |
| Column.LoFreqField | src/lofreq_python/lofreq/sam.py:425-470 | any single lofreq field keeps exactly the ten store keys |
| Column.LoFreqFields | src/lofreq_python/lofreq/sam.py:425-470 | the enumerate loop over the fields in order, stopping at the first exception, keeps exactly the ten store keys; `ColumnFacts.FieldsNeverEmptyLine` and `ColumnFacts.FieldsThroughPairs` state the rest |
| Column.LoFreqParse | src/lofreq_python/lofreq/sam.py:417-475 | the lofreq `parse_line`, success or exception, keeps exactly the ten store keys |
| Column.RecordPairsAccepts | src/lofreq_python/lofreq/sam.py:436-440 | the pair field is recorded exactly when it has even length and every base letter is a store key |
| Column.RecordPairsTotal | src/lofreq_python/lofreq/sam.py:436-440 | a well-formed pair field adds half its length to the store's total |
| Column.SummaryDict | src/lofreq_python/lofreq/sam.py:455-456 | the `key=value` dictionary exists exactly when every entry has exactly one `=` |
| Column.SummaryDictLastWins | src/lofreq_python/lofreq/sam.py:455-456 | a key given more than once keeps the value of its last entry |
| Column.LookupInt | src/lofreq_python/lofreq/sam.py:458-462 | `int(field_dict[key])` succeeds exactly when the key is present with integer text; a missing key is a `KeyError` naming it |
| Column.SummaryField | src/lofreq_python/lofreq/sam.py:452-467 | the summary field leaves the store, the coverage and the reference base alone |
| Column.ReadEventCounts | src/lofreq_python/lofreq/sam.py:458-460 | reading `#heads`, `#tails` and `#ins` succeeds exactly when all three are present integers; only those three counters change |
| Column.ReadIndelLengths | src/lofreq_python/lofreq/sam.py:461-463 | reading `ins_len`, `#del` and `del_len` succeeds exactly when they are present and `#del` is an integer; only those fields change |
| Column.ScoreHist | src/lofreq_python/lofreq/sam.py:128-136 | the `probsum` loop computes the base's score |
| Column.CountHist | src/lofreq_python/lofreq/sam.py:443-444 | the inner `sum(values())` computes the histogram's total |
| Column.PileupColumn.constructor | src/lofreq_python/lofreq/sam.py:74-103 | a fresh column has exactly the ten keys, each with an empty histogram, all six counters zero and no locus |
| Column.PileupColumn.RemStartEndMarkup | src/lofreq_python/lofreq/sam.py:248-272 | returns the stripped bases and sets `num_read_ends` and `num_read_starts`; nothing else changes |
| Column.PileupColumn.CutIndels | src/lofreq_python/lofreq/sam.py:298-311 | the `while True` loop ends with the loop's result and adds its `+` passes to `num_ins_events` |
| Column.PileupColumn.RemIndelMarkup | src/lofreq_python/lofreq/sam.py:275-325 | returns the bases without `*` and the lock-step qualities, adds the insertions and sets `num_del_events` to the number of `*` |
| Column.PileupColumn.RecordBases | src/lofreq_python/lofreq/sam.py:234-239 | the histogram loop fills the store with every valid call and keeps the ten keys |
| Column.PileupColumn.DetermineCons | src/lofreq_python/lofreq/sam.py:110-151 | returns the consensus of the current store |
| Column.PileupColumn.Vote | src/lofreq_python/lofreq/sam.py:241-244 | `cons_base` becomes the vote, or the reference base when the vote is `-` or `N` |
| Column.PileupColumn.ParseLine | src/lofreq_python/lofreq/sam.py:154-244 | the generic `parse_line` leaves the object exactly as the decoder's specification says |
| Column.PileupColumn.ParseFields | src/lofreq_python/lofreq/sam.py:198-244 | the six fields are decoded as specified |
| Column.PileupColumn.ParseLocus | src/lofreq_python/lofreq/sam.py:198-202 | the locus fields are stored as specified |
| Column.PileupColumn.ParseCalls | src/lofreq_python/lofreq/sam.py:204-244 | the bases and qualities are cleaned, checked, tallied and voted as specified |
| Column.PileupColumn.CleanCalls | src/lofreq_python/lofreq/sam.py:204-221 | the cleaning steps return the cleaned calls and set only the four markup counters |
| Column.PileupColumn.TallyCalls | src/lofreq_python/lofreq/sam.py:222-244 | the length check, the histogram loop and the vote change the store and `cons_base` as specified |
| Column.PileupColumn.RecordPairsInPlace | src/lofreq_python/lofreq/sam.py:436-440 | the pair loop updates the store in place as specified, failing on an odd field or an unknown letter |
| Column.PileupColumn.CountCalls | src/lofreq_python/lofreq/sam.py:443-444 | `num_bq` is the total number of recorded calls |
| Column.PileupColumn.ParsePairField | src/lofreq_python/lofreq/sam.py:435-450 | field 4 is recorded and then checked against the coverage |
| Column.PileupColumn.ParseSummaryField | src/lofreq_python/lofreq/sam.py:452-467 | field 5 sets the six summary fields in source order, stopping at the first failure |
| Column.PileupColumn.StoreEventCounts | src/lofreq_python/lofreq/sam.py:458-460 | the three event counters are set one by one as specified |
| Column.PileupColumn.StoreIndelLengths | src/lofreq_python/lofreq/sam.py:461-463 | the indel lengths and `num_del_events` are set one by one as specified |
| Column.PileupColumn.ParseLoFreqField | src/lofreq_python/lofreq/sam.py:425-470 | one enumerated field is handled by its number |
| Column.PileupColumn.ParseLocusField | src/lofreq_python/lofreq/sam.py:426-434 | fields 0 to 3 are stored, and later ones only warn |
| Column.PileupColumn.ParseLoFreqLine | src/lofreq_python/lofreq/sam.py:417-475 | the lofreq `parse_line` leaves the object exactly as the decoder's specification says |
| Column.PileupColumn.ParseLoFreqFields | src/lofreq_python/lofreq/sam.py:425-470 | the tokenised fields are handled in order, stopping at the first exception |
| ColumnFacts.GenericOk | src/lofreq_python/lofreq/sam.py:191-244 | a successful generic parse started unparsed, had six fields and a valid locus, and matched bases and qualities one to one |
| ColumnFacts.SecondParseRefused | src/lofreq_python/lofreq/sam.py:191-192 | after a successful parse, any further parse is refused and changes nothing |
| ColumnFacts.FieldCountChecked | src/lofreq_python/lofreq/sam.py:194-196 | an unparsed column refuses the line exactly when it does not have five tabs, and is then unchanged |
| ColumnFacts.QualityCheckCatchesTooFew | src/lofreq_python/lofreq/sam.py:221-224 | the length check can fail only with too few qualities for the bases left after the markup is stripped |
| ColumnFacts.GenericParseAccepts | src/lofreq_python/lofreq/sam.py:191-244 | a generic parse succeeds exactly when the column is unparsed, the line has six fields, position and coverage are integers and the cleaned lengths match; enough qualities guarantee the match |
| ColumnFacts.GenericTallied | src/lofreq_python/lofreq/sam.py:204-244 | once the locus is read, the parse is the tally of the cleaned calls over the counters cleaning set |
| ColumnFacts.GenericParseResult | src/lofreq_python/lofreq/sam.py:198-244 | after a successful parse: the locus as read, the markup counters, the averages unchanged, `cons_base` set, each letter's total grown by its occurrences and the store grown by the valid bases |
| ColumnFacts.GenericConsensus | src/lofreq_python/lofreq/sam.py:241-244 | `cons_base` is the reference base or the base that leads the vote |
| ColumnFacts.FieldFacts | src/lofreq_python/lofreq/sam.py:425-470 | no field raises the empty-line error; fields from 5 on leave the store and coverage alone; an accepted field 4 leaves a coverage at least the store's total |
| ColumnFacts.PairsNeverEmptyLine | src/lofreq_python/lofreq/sam.py:436-440 | the pair loop fails only on an odd field or an unknown letter |
| ColumnFacts.SummaryErrors | src/lofreq_python/lofreq/sam.py:455-467 | the summary field fails only on a malformed entry, a missing key or a non-integer |
| ColumnFacts.FieldsNeverEmptyLine | src/lofreq_python/lofreq/sam.py:425-470 | the field loop never raises the empty-line error |
| ColumnFacts.LoFreqEmptyLine | src/lofreq_python/lofreq/sam.py:421-423 | the lofreq parse raises the empty-line error exactly when the line is all whitespace, and then changes nothing |
| ColumnFacts.FieldsAfterPairs | src/lofreq_python/lofreq/sam.py:452-470 | fields from 5 on never touch the store or the coverage |
| ColumnFacts.FieldsThroughPairs | src/lofreq_python/lofreq/sam.py:435-447 | a successful field loop that reaches field 4 ends with a coverage at least the store's total |
| ColumnFacts.LoFreqCoverageBound | src/lofreq_python/lofreq/sam.py:443-447 | after a successful lofreq parse of at least five fields, the recorded calls never exceed the coverage |
| ColumnFacts.PairFieldAccepts | src/lofreq_python/lofreq/sam.py:435-447 | on a fresh store, field 4 is accepted exactly when it is well formed and the coverage is at least half its length |
| ColumnFacts.EmptyTotal | src/lofreq_python/lofreq/sam.py:93-96 | a fresh store holds no calls |
| ColumnFacts.SummaryFieldAccepts | src/lofreq_python/lofreq/sam.py:452-467 | the summary is accepted exactly when the dictionary exists with all six keys and integer counts; the six fields then hold their values; a missing key is one of the six |
| Header.SqName | src/lofreq_python/lofreq/sam.py:550-556 | a line declares a name exactly when its words start `@SQ`, `SN:...`, and the name follows `SN:` |
| Header.SqNames | src/lofreq_python/lofreq/sam.py:543-559 | at most one name per header line |
| Header.SqNamesExact | src/lofreq_python/lofreq/sam.py:543-559 | a name is listed exactly when some header line declares it |
| Header.SqNamesAppend | src/lofreq_python/lofreq/sam.py:549-556 | the names of two runs of lines are those of the first, then those of the second, in header order |
| Header.SqListFromHeader | src/lofreq_python/lofreq/sam.py:543-559 | the loop collects exactly the declared names in header order |
| Header.LnField | src/lofreq_python/lofreq/sam.py:579-581 | the text after `LN:` of the first later field that starts with it, if any |
| Header.Decode | src/lofreq_python/lofreq/sam.py:581 | a found length is an integer or a `ValueError` |
| Header.LenForSqFirst | src/lofreq_python/lofreq/sam.py:563-584 | `len_for_sq` is `None` exactly when no line gives a length for the name, else the decoded length of the first line that does |
| Header.LenForSq | src/lofreq_python/lofreq/sam.py:563-584 | `len_for_sq`; `Header.LenForSqFirst` states its promise |
| Header.FirstLengthNone | src/lofreq_python/lofreq/sam.py:568-584 | the search from a line finds nothing exactly when no later line gives a length |
| Header.FirstLengthFound | src/lofreq_python/lofreq/sam.py:568-581 | a successful search returns the first later line's decoded length |
| Header.SqLineName | src/lofreq_python/lofreq/sam.py:550-556 | the name of a samtools `@SQ` line is found by the word reader |
| Header.SqLineLength | src/lofreq_python/lofreq/sam.py:568-581 | a samtools `@SQ` line gives its length for its own name and no other, and the length text decodes to the length |
| Header.OtherLineRead | src/lofreq_python/lofreq/sam.py:553-554 | a line with another tag declares no name and gives no length |
| Header.ChromLenSumMeaning | src/lofreq_python/lofreq/sam.py:686-695 | the sum succeeds exactly when every requested chromosome is listed and has a length, and is then the total of the lengths |
| Header.ChromLenSum | src/lofreq_python/lofreq/sam.py:683-695 | the summing loop's result; `Header.ChromLenSumMeaning` and `Header.ChromLenSumRefusal` state its promises |
| Header.ChromLenSumRefusal | src/lofreq_python/lofreq/sam.py:686-693 | a refused sum names a requested chromosome that is not listed, has no length or has a non-integer length |
| Header.SumLengths | src/lofreq_python/lofreq/sam.py:686-695 | the summing loop computes the specified sum |
| Header.SumChromLen | src/lofreq_python/lofreq/sam.py:668-695 | `sum_chrom_len` sums over the requested chromosomes, or over all declared names when none are requested |
| Header.AllNamesKnown | src/lofreq_python/lofreq/sam.py:683-689 | summing over all declared names never fails for an unknown chromosome |
| Header.RangesSpanMeaning | src/lofreq_python/lofreq/sam.py:726-731 | a chromosome's ranges are accepted exactly when each has positive width, adding at least one per range |
| Header.BedSpanMeaning | src/lofreq_python/lofreq/sam.py:723-731 | the BED span is accepted exactly when every range has positive width, and is then non-negative |
| Header.BedSpanAppend | src/lofreq_python/lofreq/sam.py:725-731 | the span of two runs of chromosomes is the sum of their spans |
| Header.BedSpanOrder | src/lofreq_python/lofreq/sam.py:725 | the order in which the chromosome mapping is iterated does not change the span or whether it is accepted |
| Header.SumBedRanges | src/lofreq_python/lofreq/sam.py:721-731 | the nested BED loops compute the specified span |
| Header.RangesThen | src/lofreq_python/lofreq/sam.py:726-731 | the inner loop refuses on a bad range, else adds its span to what follows |
| Header.Triple | src/lofreq_python/lofreq/sam.py:736 | the factor is three times the length, so it divides by 3 back to the length |
| Header.AutoBonfFactor | src/lofreq_python/lofreq/sam.py:698-737 | `auto_bonf_factor` over already-read inputs computes the specified factor |
| Header.BonfFactorMeaning | src/lofreq_python/lofreq/sam.py:703-736 | the factor is a multiple of 3. With a BED file it is three times the BED span. With an exclusion file and a chromosome, it is three times the chromosome's length minus the excluded positions. With neither, it is three times the total of the header lengths. An exclusion file without a chromosome (or the reverse) is refused, and so is a BED file together with an exclusion file |
| Header.BonfFactor | src/lofreq_python/lofreq/sam.py:698-737 | `auto_bonf_factor` over already-read inputs; `Header.BonfFactorMeaning` states its promise |
| Header.DepthBonfFactor | src/lofreq_python/lofreq/sam.py:794 | the depth factor is three times the number of covered columns |
| Header.TwoSqNames | src/lofreq_python/lofreq/sam.py:543-559 | a header of one other line and two `@SQ` lines lists the two names in order |
| Header.TwoSqLengths | src/lofreq_python/lofreq/sam.py:563-584 | such a header gives each name its own length |
| Header.TwoSqFactor | src/lofreq_python/lofreq/sam.py:732-736 | such a header's factor is three times the two lengths |
| Header.TwoChromosomeHeader | src/lofreq_python/lofreq/sam.py:732-736 | a header with `chr1` of length 1000 and `chr2` of length 2000 has factor 9000 |

## Left out

- Logging is not modelled (sam.py:52-54, 208-210, 226-232, 469). None of these warnings changes the object's state.
- samtools and subprocess plumbing is not modelled: `Pileup`, `sam_header`, `samtools_version` and `__auto_bonf_factor_from_depth`. Header lines, BED ranges, excluded positions and the count of covered columns are given as values.
- File I/O is not modelled. `utils.read_exclude_pos_file` and `utils.read_bed_coords` are not part of this model.
- `depth_stats` is a C extension and is not part of this model. Only the factor arithmetic of `auto_bonf_factor_from_depth` is modelled.
- `utils.phredqual_to_prob` is not part of this model. The consensus weight is the parameter `weight`, and real arithmetic stands in for floats.
- The tie order of Python's stable sort is not modelled. `MaxIndex` takes the last of equal maxima, but a tie within 1e-6 votes `N` anyway.
- The `float()` parse of `ins_len` and `del_len` is not modelled. The text is stored as `AvgText`, and a `ValueError` from `float()` cannot arise in the model.
- `Text.ParseInt` accepts surrounding whitespace (space and the characters 9 to 13), an optional sign and ASCII decimal digits. Any other text is a `ValueError` in the model, including any further forms the Python 2 runtime's `int()` may also accept.
- `PileupColumn(line)` is modelled as the constructor followed by `ParseLine`. The `if line:` test is left to the caller.
- The `header == False` test of `sum_chrom_len` is left out, because a header is always a list of lines here.
- A missing exclusion file name or chromosome stands in for Python's falsy value. `excl` is an `Option` and an empty `chrom` means none.
- The BED coordinates are given as the sequence of `(chromosome, ranges)` items of the dictionary, in iteration order. `BedSpanOrder` shows that the order does not matter.
- Column.Locus: `ref_base` is stored upper-cased without checking that it is one base, as the code does.
- Column.Tally: the consensus is computed over the whole store. `Vote.Consensus` needs the ten keys, which every method preserves.
- ColumnFacts.LoFreqCoverageBound: it needs at least five fields, because a lofreq line with fewer fields never reaches the coverage check (sam.py:443-447). `cons_base` then stays `None` when fewer than three fields set no reference base.
- The generic `parse_line` does not strip the line. A trailing newline stays in the sixth field and decodes as one more quality (sam.py:194, 207).
- `num_del_events` is the number of `*` placeholders left after the indel markup is stripped, not the number of `-N` deletion markups (sam.py:319). The model follows the code.
