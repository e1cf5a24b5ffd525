/**
 * The two ways a transcript reconciles its CIGAR with an MD value agree:
 * the MD that `getNMandMDFlags` builds always merges with the CIGAR it was
 * built from, and the merged CIGAR's X, D and I runs add up to the NM the
 * same walk counted.
 */
module Agreement {
  import opened Results
  import opened Text
  import opened Cigar
  import opened MdTag
  import opened Merge
  import opened Recompute

  lemma TokenRunsShape(toks: seq<MdToken>)
    ensures MdRunsShape(TokenRuns(toks)) && NoPassthrough(TokenRuns(toks))
  {
  }

  /** X + D + I of the merged CIGAR equals the edits of the MD plus the CIGAR's insertions. */
  lemma MergedEdits(cigarRuns: seq<Run>, mdRuns: seq<Run>, out: seq<Run>)
    requires NoPassthrough(mdRuns)
    requires Sweep(cigarRuns, mdRuns) == Ok(out)
    requires AlignedLabels(out) == AlignedLabels(mdRuns)
    ensures OpTotal(out, "X") == OpTotal(mdRuns, "X")
    ensures OpTotal(out, "D") == OpTotal(mdRuns, "D")
    ensures OpTotal(out, "I") == OpTotal(cigarRuns, "I")
  {
    OpTotalByLabels(out, "X");
    OpTotalByLabels(mdRuns, "X");
    OpTotalByLabels(out, "D");
    OpTotalByLabels(mdRuns, "D");
    SweepPassthrough(cigarRuns, mdRuns, out);
    OpTotalOfPassthrough(out, "I");
    OpTotalOfPassthrough(cigarRuns, "I");
  }

  /**
   * On runs: a CIGAR whose labels fit the labels of a shaped MD token list
   * that does not end in a zero count sweeps successfully, and the result's
   * X + D + I is the MD's edits plus the CIGAR's insertions.
   */
  lemma SweepAgrees(runs: seq<Run>, toks: seq<MdToken>)
    requires Walkable(runs)
    requires var rs := TokenRuns(toks); rs == [] || rs[|rs| - 1].len > 0
    requires Fits(AlignedLabels(runs), MdLabels(toks))
    ensures Sweep(runs, TokenRuns(toks)).Ok?
    ensures var out := Sweep(runs, TokenRuns(toks)).value;
            PassthroughRuns(out) == PassthroughRuns(runs) &&
            Fits(AlignedLabels(runs), AlignedLabels(out)) &&
            OpTotal(out, "X") + OpTotal(out, "D") + OpTotal(out, "I") == TokenEdits(toks) + OpTotal(runs, "I")
  {
    var mdRuns := TokenRuns(toks);
    TokenRunsShape(toks);
    assert forall k :: 0 <= k < |runs| ==> runs[k].len > 0;
    SweepFollowsMd(runs, mdRuns);
    var out := Sweep(runs, mdRuns).value;
    MergedEdits(runs, mdRuns, out);
    SweepPassthrough(runs, mdRuns, out);
  }

  /**
   * For a CIGAR of one-letter standard operations with counts above zero,
   * whose reference bases are not digits, `^` or `:`, merging the recomputed
   * MD with the CIGAR succeeds, keeps the skipped and clipped runs, follows
   * the MD base for base, and its mismatches, deletions and insertions add
   * up to the recomputed NM.
   */
  lemma MergeAgreesWithRecompute(cigar: string, read: string, pos: int, chrom: string, g: Genome,
                                 ops: seq<string>, counts: seq<nat>, nm: string, md: string)
    requires SplitCigar(cigar) == Ok((ops, counts)) && |ops| == |counts|
    requires Walkable(Zip(ops, counts))
    requires GenomeBases(g, chrom)
    requires NmMdFlags(cigar, read, pos, chrom, g) == Ok((nm, md))
    ensures MergeSpec(cigar, md).Ok?
    ensures var out := MergeSpec(cigar, md).value;
            PassthroughRuns(out) == PassthroughRuns(Zip(ops, counts)) &&
            Fits(AlignedLabels(Zip(ops, counts)), AlignedLabels(out)) &&
            AllDigits(nm) && ParseNat(nm) == OpTotal(out, "X") + OpTotal(out, "D") + OpTotal(out, "I")
  {
    var runs := Zip(ops, counts);
    var st := RecomputeState(cigar, read, pos, chrom, g).value;
    NmMdFlagsFormat(cigar, read, pos, chrom, g, nm, md);
    RecomputeShape(cigar, read, pos, chrom, g, ops, counts, st);
    var toks := FinalTokens(st);
    assert md == "MD:Z:" + Render(toks);
    MdRunsOfRender(toks);
    ZipAsZipFrom(ops, counts);
    SweepAgrees(runs, toks);
    assert MergeSpec(cigar, md) == Sweep(runs, TokenRuns(toks));
  }
}
