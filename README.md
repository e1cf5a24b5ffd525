# Transcript2 in Dafny

A model of the `Transcript2` record of TranscriptClean: one SAM alignment
line, the fields derived from it, and the two ways it reconciles its CIGAR
string with an MD value.

- `Transcripts.Transcript` is a class with the record's attributes as fields.
  It has one method per Python method:
  - `__init__` is the constructor plus `FromSam`/`FromColumns`.
  - `splitMD` is `MdTag.SplitMd`.
  - `mergeMDwithCIGAR` is `MergeMdWithCigar`, which runs the two-cursor loop `Merge.SweepRuns`.
  - `getNMandMDFlags` is `GetNmAndMdFlags` with its loops `WalkRun` and `CompareBases`.
  - `parseSpliceJunctions`, `recheckCanonical`, `getAllIntronBounds` and `printableFa` keep their names.
- Each loop is proved against a function that states what it computes:
  - `Cigar.SplitCigar` for `splitCIGAR`, which has no loop and stays a function
  - `MdTag.MdRunsOf` for `splitMD`
  - `Merge.Sweep` (and `Merge.MergeSpec`) for `mergeMDwithCIGAR`
  - `Recompute.Walk` (and `Recompute.NmMdFlags`) for `getNMandMDFlags`
  - `Junctions.ParseJunctions` for `parseSpliceJunctions`
  - `Junctions.Flatten` for `getAllIntronBounds`
  - `Fasta.FastaText` for `printableFa`
- The lemmas beside those functions state what the code promises:
  - `splitCIGAR` inverts CIGAR writing.
  - `splitMD` inverts MD rendering.
  - Merging keeps the clip, skip and insertion runs and conserves the aligned length.
  - Merging fails when the MD's last run is a zero-length match and the CIGAR's counts are above zero.
  - NM counts mismatches, deleted bases and inserted bases.
  - A leading hard clip shifts the compared reference positions.
  - For a CIGAR of the operations M, I, D, N, S and H with counts above zero, over reference bases that are not a digit, `^` or `:`, the recomputed MD merges with its own CIGAR, and NM equals the X + D + I of the merged CIGAR.
  - Without that restriction the merge can fail. For `3M0M` the recomputed MD is `MD:Z:3`, and the merge runs out of MD runs at the `0M` run.
  - Junction `k` is built from motif `k` and bounds `2k` and `2k + 1`.

The model keeps these behaviours of the Python code as written:
- A hard clip advances the reference position, as `N` does.
- The recomputed MD never ends in a zero match count, because the last count is written only when it is above zero. `MD:Z:10` ends in the digit `0`, but its last count is ten.
- An MD whose last run is a zero-length match, such as `MD:Z:9A0`, makes the merge against a CIGAR with counts above zero run off the end of the CIGAR lists (an IndexError).
- FLAG is kept as a string and compared with the number 16, so the strand is always `+`.
- NM is returned as a decimal string.

`SamFields.ParseSam`, `Text.ParseInt`, `MdTag.MdBody`, `MdTag.MdRun`,
`Recompute.BaseAt`, `Recompute.BasesAt` and `Recompute.Zip` are the
definitions of the Python primitives the record code uses: the column split,
`int()`, `split(":")[2]`, the reading of one MD group, the genome lookups and
`zip`. Their properties are stated by the lemmas in the table below.

Errors Python raises (IndexError, ValueError, a failed genome lookup) are
`Err(IndexOutOfRange)`, `Err(NotAnInteger)` and `Err(LookupFailure)`. Each is
raised at the point where the code raises it.

Files:
- `results.dfy` holds results and runs.
- `text.dfy` holds string helpers: `str`, `int`, `split` and `join`.
- `sam.dfy` holds the SAM columns and optional fields.
- `cigar.dfy`, `md.dfy`, `merge.dfy`, `recompute.dfy`, `junctions.dfy` and `fasta.dfy` hold one module each, for `splitCIGAR`, `splitMD`, `mergeMDwithCIGAR`, `getNMandMDFlags`, the junction methods and `printableFa`.
- `agreement.dfy` holds the cross-module theorem.
- `transcript.dfy` holds the class.

## Model

| member | source | states |
|---|---|---|
| Transcripts.Transcript.constructor | transcript2.py:13-52 | the eleven columns are copied; each of NM, MD, jM and jI holds the last optional field with its prefix, or ""; all other optional fields are joined by tabs in order; no junctions, canonical, strand "+" |
| Transcripts.Transcript.FromSam | transcript2.py:12-57 | a line that does not split into eleven columns with an integer POS fails with that error; otherwise construction fails exactly when recomputing NM/MD or pairing junctions fails, and a constructed record holds the columns, the kept or recomputed NM/MD and the parsed junctions |
| Transcripts.Transcript.FromColumns | transcript2.py:16-57 | construction from columns fails exactly when `InitFails`; on success the fresh record `Describes` the columns |
| Transcripts.Transcript.FlagStage | transcript2.py:43-44 | on a freshly built record: fails exactly when there is no MD field and the recomputation fails; otherwise the record holds the kept or recomputed NM and MD |
| Transcripts.Transcript.JunctionStage | transcript2.py:54-57 | fails exactly when jM lists junctions and pairing them fails; otherwise the record's junctions and canonical flag are those of the jM/jI fields |
| Transcripts.Transcript.FillFlags | transcript2.py:43-44 | with an MD field, NM and MD are unchanged; without one, succeeds exactly when `NmMdFlags` does and stores its NM and MD, and fails with its error |
| Transcripts.Transcript.FillJunctions | transcript2.py:55-57 | junctions are built only when jM is non-empty and lacks "-1"; then it succeeds exactly when `ParseJunctions` does and stores its junctions, clearing the canonical flag when one is not canonical |
| SamFields.ParseSamOfColumns | transcript2.py:13-26 | joining eleven or more tab-free columns with tabs and reading them back gives those columns and the decimal POS |
| SamFields.LastOfKindWins | transcript2.py:35-39 | an attribute holds the last optional field of its kind, no later field has that kind, and it is "" exactly when no field has it |
| SamFields.OthersAppend | transcript2.py:40 | the unrecognised fields of a concatenation are those of each part, in order |
| SamFields.OthersOfUntagged | transcript2.py:40 | fields with no recognised prefix are all kept, in order |
| SamFields.OthersCount | transcript2.py:35-40 | every optional field is either kept in `otherFields` or taken by one of NM/MD/jM/jI |
| SamFields.StripEnds | transcript2.py:13 | the stripped line neither starts nor ends with whitespace |
| Text.NatToString | transcript2.py:269 | `str(n)` is a non-empty digit string without a leading zero, one digit exactly when n < 10 |
| Text.ParseNatToString | transcript2.py:269 | reading `str(n)` back gives n |
| Text.ParseIntOfNumeral | transcript2.py:183-184 | `int()` reads back `str(n)` as n, `-` + `str(n)` as -n and `+` + `str(n)` as n, and rejects a numeral with any other non-digit in front |
| Text.SplitOnJoin | transcript2.py:46 | splitting a tab-joined list again at tabs gives the list back when no part contains a tab |
| Cigar.SplitCigarEncode | transcript2.py:68-75 | decoding a CIGAR string written from letters and positive counts gives back the letters and the counts |
| Cigar.SplitCigarRejoins | transcript2.py:68-75 | on a well-formed CIGAR the two lists have equal length, one capital letter per operation, counts above zero, and re-joining them gives the string |
| Cigar.EncodeTypeFields | transcript2.py:71 | blanking digits and splitting on blanks leaves exactly the operation letters |
| Cigar.EncodeCountFields | transcript2.py:72 | blanking capital letters and splitting on blanks leaves exactly the count numerals |
| Cigar.ParseNumerals | transcript2.py:73 | `int()` of each count numeral gives the counts back |
| MdTag.MdBodyOf | transcript2.py:80 | the third `:`-separated part of `MD:Z:` followed by a colon-free body is that body |
| MdTag.MdRunOfToken | transcript2.py:87-99 | reading back the rendering of a token gives its run: a count gives an M run of its value (zero included), a mismatch base that is not a digit, `^` or `:` gives an X run of one, `^` and its bases give a D run of their number |
| MdTag.SplitMd | transcript2.py:77-101 | succeeds exactly when `MdRunsOf` does (IndexError otherwise); the two lists have equal length, pair up into `MdRunsOf`, and hold only M, X and D |
| MdTag.GroupsOfRender | transcript2.py:84 | grouping a rendered MD value by digit-ness gives back the rendering of each token |
| MdTag.MdRunsOfRender | transcript2.py:77-101 | splitting an MD field rendered from a well-shaped token list gives one run per token: counts as M, mismatches as X, deletions as D of their base count |
| Merge.SweepRuns | transcript2.py:128-166 | the two-cursor loop with counts decremented in place returns IndexError when there are more operations than counts, and otherwise exactly what `Sweep` gives for the zipped runs |
| Transcripts.Transcript.MergeMdWithCigar | transcript2.py:103-170 | the method's result is `MergeSpec` of the record's CIGAR and MD, as two lists of equal length, and its error when that fails |
| Merge.SweepPassthrough | transcript2.py:139-142 | on success the H, S, I and N runs of the merged list are exactly the CIGAR's, in order and with their counts |
| Merge.SweepConserves | transcript2.py:146-166 | on success the M/X/D runs of the merged list add up to the CIGAR's total outside H/S/I/N and to the MD's total |
| Merge.SweepFailsOnLengthMismatch | transcript2.py:128-166 | the merge fails whenever the CIGAR and the MD disagree on the aligned length |
| Merge.SweepFailsOnTrailingZero | transcript2.py:128-136 | an MD whose last run has length zero makes the merge fail against any CIGAR with positive counts |
| Merge.ZeroTotalLastRun | transcript2.py:128-166 | an MD list of total length zero ends in a zero-length run |
| Merge.SweepFollowsMd | transcript2.py:145-166 | when the CIGAR's per-base labels fit the MD's (X over M, otherwise equal), counts are positive and the MD does not end in a zero run, the merge succeeds and labels every aligned base as the MD does |
| Merge.OpTotalByLabels | transcript2.py:146-166 | the total of an M/X/D operation equals the number of bases labelled with it |
| Merge.AlignedTotalOfStandard | transcript2.py:139-166 | for standard CIGAR operations the aligned total is the M total plus the D total |
| Recompute.BasesAtPoint | transcript2.py:242 | the per-base lookup, a range call with start equal to stop, succeeds exactly when the one-based position is on the contig and gives the one base there |
| Recompute.BasesAtPoints | transcript2.py:257 | a successful range lookup for a deletion holds one base per position from start to stop, each the base the per-base lookup gives there |
| Recompute.ZipAsZipFrom | transcript2.py:238 | `zip` pairs operations and counts as the merge does when every operation has a count, and drops the operations past the last count |
| Transcripts.Transcript.GetNmAndMdFlags | transcript2.py:229-269 | the method's result is `NmMdFlags` of the record's CIGAR, read, POS and contig |
| Transcripts.Transcript.WalkRun | transcript2.py:239-266 | one run of the outer loop gives exactly the state `Step` gives, with the MD text so far equal to the rendered tokens |
| Transcripts.Transcript.CompareBases | transcript2.py:240-252 | the M-run inner loop gives exactly the state `MatchBases` gives, with the MD text equal to the rendered tokens |
| Recompute.MatchBasesCounts | transcript2.py:240-252 | comparing k bases adds to NM the mismatches among the k positions compared and advances both cursors by k |
| Recompute.WalkCountsEdits | transcript2.py:238-266 | NM is the mismatches at the compared positions plus the total D length plus the total I length |
| Recompute.RecomputeNm | transcript2.py:229-269 | for the record, NM is the mismatches of its M runs plus its deleted and inserted bases |
| Recompute.MatchPositionsShift | transcript2.py:265-266 | starting the reference cursor further right shifts every compared reference position by the same amount |
| Recompute.LeadingHardClipShifts | transcript2.py:265-266 | a leading hard clip of length h moves every compared reference position h bases right, though H consumes no reference |
| Recompute.FinalTokensClose | transcript2.py:268 | after closing the MD, the tokens are well shaped, the last count is never zero, and closing adds matches but no edit |
| Recompute.WalkKeeps | transcript2.py:238-266 | over positive-count standard runs the walk keeps its tokens shaped, their labels fitting the CIGAR, and NM equal to their edits plus the inserted bases |
| Recompute.RecomputeShape | transcript2.py:229-269 | the recomputed MD is `MD:Z:` plus a well-shaped token list that does not end in a zero match count, whose labels fit the CIGAR base for base, and NM is its edits plus the inserted bases |
| Recompute.RecomputeMdLength | transcript2.py:229-269 | for every CIGAR the walk gets through, whatever its operations and counts, the bases the recomputed MD covers are its M total plus its D total |
| Recompute.WalkLength | transcript2.py:238-266 | over any runs, the bases covered by the MD tokens and the pending match count grow by exactly the M total plus the D total |
| Recompute.NmMdFlagsFormat | transcript2.py:231-269 | NM is the decimal numeral of the walk's count and MD starts with `MD:Z:` |
| Agreement.MergedEdits | transcript2.py:146-166 | after a merge that follows the MD, its X and D totals are the MD's and its I total is the CIGAR's |
| Agreement.SweepAgrees | transcript2.py:128-166 | a CIGAR fitting a shaped MD token list that does not end in a zero match count merges, keeps its clip/skip/insertion runs, and X + D + I is the MD's edits plus the insertions |
| Agreement.MergeAgreesWithRecompute | transcript2.py:103-170 | merging the recomputed MD with its own CIGAR succeeds, keeps the clip/skip/insertion runs, follows the MD, and X + D + I of the merge equals the recomputed NM |
| Transcripts.Transcript.ParseSpliceJunctions | transcript2.py:173-193 | the method's result is `ParseJunctions` of its fields, and the canonical flag is cleared exactly when some junction is not canonical, never set |
| Junctions.PairFromSpec | transcript2.py:176-191 | pairing succeeds exactly when there are two integer bounds per motif; junction j then has number j, motif j, bounds 2j and 2j + 1, and the verdict of its bounds and motif |
| Junctions.AllCanonicalAppend | transcript2.py:189 | a list with one more junction is canonical exactly when the list and the junction are |
| Transcripts.Transcript.RecheckCanonical | transcript2.py:59-65 | returns and stores whether every junction is canonical |
| Junctions.Flatten | transcript2.py:211-219 | two bounds per junction, start then end, in junction order |
| Transcripts.Transcript.GetAllIntronBounds | transcript2.py:211-219 | returns the start and end of every junction in order, which is `Flatten` of the junctions |
| Junctions.FlattenParsed | transcript2.py:211-219 | listing the bounds of parsed junctions gives back the integers of the jI field, two per motif of jM |
| Fasta.ChunkCount | transcript2.py:208 | a read of n characters cut into lines of width w has ceil(n / w) lines, none exactly when it is empty |
| Fasta.ChunkLengths | transcript2.py:208 | every line has 1 to 80 characters, and all but the last have exactly 80 |
| Fasta.ConcatChunks | transcript2.py:208 | the lines put together are the read |
| Fasta.FastaLines | transcript2.py:205-209 | split at line breaks, the FASTA text is `>` + QNAME followed by the read's 80-column lines; an empty read leaves `>` + QNAME and a line break |

## Left out

- The genome is a map from contig name to bases with one-based lookups. pyfasta, file access, and the genome lookup's own errors beyond "position not on the contig" are not modelled.
- `SpliceJunction` and `IntronBound` are not part of this model. A junction is a datatype holding its number, contig, bounds, strand, motif and canonical flag. Whether it is canonical is a `Verdict` parameter, because the decision reads the genome inside `spliceJunction.py`.
- `printableSAM` and `getAllSJMotifs` are not modelled. They write output and call `SpliceJunction.recheckJnStr`, which is not part of this model.
- Python's `int()` accepts surrounding whitespace, underscores and non-ASCII digits. The model reads CIGAR counts and MD numerals as plain ASCII digit strings. POS and the jI bounds allow an optional sign.
- `str.upper`, `str.isdigit` and `str.strip` are modelled for ASCII characters only.
- When `parseSpliceJunctions` raises partway through, Python has already cleared `isCanonical` for the junctions seen so far. The model reports the error without describing that partial state, and the record is then not constructed at all.
- `Transcripts.Transcript.PrintableFa` is a function with no contract of its own. `Fasta.FastaLines` and the `Chunks` lemmas state its properties.
- `__init__`, `mergeMDwithCIGAR` and `getNMandMDFlags` are each split into several Dafny members: `FromSam`, `FromColumns`, `FlagStage`, `JunctionStage`, `FillFlags` and `FillJunctions`; `SweepRuns`; `WalkRun` and `CompareBases`. Together they do what the one Python method does, in the same order.
- Recompute.RecomputeShape: proved only for CIGARs of the operations M, I, D, N, S and H with counts above zero, over reference bases that are not a digit, `^` or `:`. With a zero count or such a base the recomputed MD need not read back the same way.
- Recompute.WalkKeeps: proved under the same restriction as `RecomputeShape`.
- Agreement.MergeAgreesWithRecompute: proved under the same restriction as `RecomputeShape`.
- Concurrency is not modelled, and neither is the object identity of the junction objects.
