/** Recomputing NM and MD from the CIGAR, the read and the reference (`getNMandMDFlags`). */
module Recompute {
  import opened Results
  import opened Text
  import opened Cigar
  import opened MdTag
  import opened Merge

  /** The reference genome: the bases of each contig, position 1 first. */
  type Genome = map<string, string>

  /** The base at 1-based position `p` of `chrom`. */
  function BaseAt(g: Genome, chrom: string, p: int): (r: Result<char>)
    ensures r.Ok? <==> chrom in g && 1 <= p <= |g[chrom]|
    ensures r.Ok? ==> r.value == g[chrom][p - 1]
  {
    if chrom in g && 1 <= p <= |g[chrom]| then Ok(g[chrom][p - 1]) else Err(LookupFailure)
  }

  /** The bases at 1-based positions `start` to `stop` inclusive (none when `stop < start`). */
  function BasesAt(g: Genome, chrom: string, start: int, stop: int): (r: Result<string>)
    ensures r.Ok? <==> chrom in g && 1 <= start && start - 1 <= stop <= |g[chrom]|
    ensures r.Ok? ==> r.value == g[chrom][start - 1..stop]
  {
    if chrom in g && 1 <= start && start - 1 <= stop <= |g[chrom]|
    then Ok(g[chrom][start - 1..stop]) else Err(LookupFailure)
  }

  /**
   * A range lookup is the point lookups of its positions: it succeeds only
   * when each of them does, holds one base per position, and each base is
   * the one the point lookup gives. A one-position range is the one base.
   */
  lemma BasesAtPoints(g: Genome, chrom: string, start: int, stop: int)
    requires BasesAt(g, chrom, start, stop).Ok?
    ensures |BasesAt(g, chrom, start, stop).value| == stop - start + 1
    ensures forall i :: 0 <= i <= stop - start ==> BaseAt(g, chrom, start + i) == Ok(BasesAt(g, chrom, start, stop).value[i])
  {
  }

  lemma BasesAtPoint(g: Genome, chrom: string, p: int)
    ensures BasesAt(g, chrom, p, p).Ok? <==> BaseAt(g, chrom, p).Ok?
    ensures BaseAt(g, chrom, p).Ok? ==> BasesAt(g, chrom, p, p) == Ok([BaseAt(g, chrom, p).value])
  {
    if BaseAt(g, chrom, p).Ok? {
      assert g[chrom][p - 1..p] == [g[chrom][p - 1]];
    }
  }

  /** The running variables of the walk: NM, the MD built so far, MVal and both cursors. */
  datatype WalkState = WalkState(nm: nat, toks: seq<MdToken>, mval: nat, seqPos: nat, genomePos: int)

  /** `zip(operations, counts)`: pairs up to the shorter of the two lists. */
  function Zip(ops: seq<string>, counts: seq<nat>): (z: seq<Run>)
    ensures |z| == if |ops| <= |counts| then |ops| else |counts|
    ensures forall k :: 0 <= k < |z| ==> z[k] == Run(ops[k], counts[k])
  {
    var n := if |ops| <= |counts| then |ops| else |counts|;
    seq(n, k requires 0 <= k < n => Run(ops[k], counts[k]))
  }

  /**
   * `zip` pairs the operations the way the merge does (`ZipFrom`) as long as
   * every operation has a count; operations past the last count are dropped.
   */
  lemma ZipAsZipFrom(ops: seq<string>, counts: seq<nat>)
    ensures |ops| <= |counts| ==> Zip(ops, counts) == ZipFrom(ops, counts, 0)
    ensures |ops| > |counts| ==> Zip(ops, counts) == ZipFrom(ops[..|counts|], counts, 0)
  {
  }

  /** The inner loop over an M run: compare `k` more read bases with the reference. */
  function MatchBases(read: string, g: Genome, chrom: string, k: nat, st: WalkState): Result<WalkState>
    decreases k
  {
    if k == 0 then Ok(st)
    else if st.seqPos >= |read| then Err(IndexOutOfRange)
    else
      match BaseAt(g, chrom, st.genomePos)
      case Err(e) => Err(e)
      case Ok(ref) =>
        var st1 :=
          if Upper(read[st.seqPos]) != Upper(ref)
          then st.(nm := st.nm + 1, toks := st.toks + [Count(st.mval), Mismatch(ref)], mval := 0)
          else st.(mval := st.mval + 1);
        MatchBases(read, g, chrom, k - 1, st1.(seqPos := st.seqPos + 1, genomePos := st.genomePos + 1))
  }

  /** The body of the outer loop for one CIGAR run. H moves the reference cursor, as N does. */
  function Step(r: Run, read: string, g: Genome, chrom: string, st: WalkState): Result<WalkState>
  {
    if r.op == "M" then MatchBases(read, g, chrom, r.len, st)
    else if r.op == "D" then
      match BasesAt(g, chrom, st.genomePos, st.genomePos + r.len - 1)
      case Err(e) => Err(e)
      case Ok(bs) =>
        Ok(st.(nm := st.nm + r.len, toks := st.toks + [Count(st.mval), Deletion(bs)], mval := 0,
               genomePos := st.genomePos + r.len))
    else if r.op == "I" then Ok(st.(nm := st.nm + r.len, seqPos := st.seqPos + r.len))
    else if r.op == "S" then Ok(st.(seqPos := st.seqPos + r.len))
    else if r.op == "N" || r.op == "H" then Ok(st.(genomePos := st.genomePos + r.len))
    else Ok(st)
  }

  function Walk(runs: seq<Run>, read: string, g: Genome, chrom: string, st: WalkState): Result<WalkState>
    decreases |runs|
  {
    if runs == [] then Ok(st)
    else
      match Step(runs[0], read, g, chrom, st)
      case Err(e) => Err(e)
      case Ok(st1) => Walk(runs[1..], read, g, chrom, st1)
  }

  /** A successful walk is a successful first step and a successful walk over the rest. */
  lemma WalkHead(runs: seq<Run>, read: string, g: Genome, chrom: string, st: WalkState, st': WalkState)
    returns (st1: WalkState)
    requires runs != [] && Walk(runs, read, g, chrom, st) == Ok(st')
    ensures Step(runs[0], read, g, chrom, st) == Ok(st1) && Walk(runs[1..], read, g, chrom, st1) == Ok(st')
  {
    st1 := Step(runs[0], read, g, chrom, st).value;
  }

  /** The MD tokens once the walk is over: the last match count only when above zero. */
  function FinalTokens(st: WalkState): seq<MdToken>
  {
    st.toks + (if st.mval > 0 then [Count(st.mval)] else [])
  }

  function InitialState(pos: int): WalkState { WalkState(0, [], 0, 0, pos) }

  /** The final walk state of `getNMandMDFlags` for a record. */
  function RecomputeState(cigar: string, read: string, pos: int, chrom: string, g: Genome): Result<WalkState>
  {
    match SplitCigar(cigar)
    case Err(e) => Err(e)
    case Ok((ops, counts)) => Walk(Zip(ops, counts), read, g, chrom, InitialState(pos))
  }

  /** What `getNMandMDFlags` returns: NM as a decimal string and the MD field. */
  function NmMdFlags(cigar: string, read: string, pos: int, chrom: string, g: Genome): Result<(string, string)>
  {
    match RecomputeState(cigar, read, pos, chrom, g)
    case Err(e) => Err(e)
    case Ok(st) => Ok((NatToString(st.nm), "MD:Z:" + Render(FinalTokens(st))))
  }

  lemma {:induction false} RenderAppend(a: seq<MdToken>, b: seq<MdToken>)
    ensures Render(a + b) == Render(a) + Render(b)
  {
    if a != [] {
      assert (a + b)[1..] == a[1..] + b;
      RenderAppend(a[1..], b);
    } else {
      assert a + b == b;
    }
  }

  lemma RenderPair(n: nat, t: MdToken)
    ensures Render([Count(n), t]) == NatToString(n) + RenderToken(t)
  {
    assert [Count(n), t][1..] == [t];
    assert [t][1..] == [];
    assert Render([t]) == RenderToken(t);
  }

  /** Ending the current match run and adding a mismatch or deletion, as text. */
  lemma RenderEmit(toks: seq<MdToken>, n: nat, t: MdToken)
    ensures Render(toks + [Count(n), t]) == Render(toks) + NatToString(n) + RenderToken(t)
  {
    RenderAppend(toks, [Count(n), t]);
    RenderPair(n, t);
    Assoc(Render(toks), NatToString(n), RenderToken(t));
  }

  /** The MD text after a mismatch, written as `getNMandMDFlags` extends it. */
  lemma MdTextMismatch(md: string, toks: seq<MdToken>, n: nat, b: char)
    requires md == "MD:Z:" + Render(toks)
    ensures (md + NatToString(n)) + [b] == "MD:Z:" + Render(toks + [Count(n), Mismatch(b)])
  {
    MdTextEmit(md, toks, n, Mismatch(b));
  }

  /** The MD text after a deletion, written as `getNMandMDFlags` extends it. */
  lemma MdTextDeletion(md: string, toks: seq<MdToken>, n: nat, bs: string)
    requires md == "MD:Z:" + Render(toks)
    ensures (md + NatToString(n)) + "^" + bs == "MD:Z:" + Render(toks + [Count(n), Deletion(bs)])
  {
    MdTextEmit(md, toks, n, Deletion(bs));
    Assoc(md + NatToString(n), "^", bs);
  }

  lemma MdTextEmit(md: string, toks: seq<MdToken>, n: nat, t: MdToken)
    requires md == "MD:Z:" + Render(toks)
    ensures (md + NatToString(n)) + RenderToken(t) == "MD:Z:" + Render(toks + [Count(n), t])
  {
    RenderEmit(toks, n, t);
    var R, N, T := Render(toks), NatToString(n), RenderToken(t);
    calc {
      (md + N) + T;
      (("MD:Z:" + R) + N) + T;
      { Assoc("MD:Z:" + R, N, T); }
      ("MD:Z:" + R) + (N + T);
      { Assoc("MD:Z:", R, N + T); }
      "MD:Z:" + (R + (N + T));
      { Assoc(R, N, T); }
      "MD:Z:" + ((R + N) + T);
    }
  }

  lemma Assoc(a: string, b: string, c: string)
    ensures (a + b) + c == a + (b + c)
  {
  }

  /** The MD text after the final match count. */
  lemma MdTextClose(md: string, toks: seq<MdToken>, n: nat)
    requires md == "MD:Z:" + Render(toks)
    ensures md + NatToString(n) == "MD:Z:" + Render(toks + [Count(n)])
  {
    RenderClose(toks, n);
    Assoc("MD:Z:", Render(toks), NatToString(n));
  }

  lemma RenderClose(toks: seq<MdToken>, n: nat)
    ensures Render(toks + [Count(n)]) == Render(toks) + NatToString(n)
  {
    RenderAppend(toks, [Count(n)]);
    assert [Count(n)][1..] == [];
  }

  /** One more step of the outer loop, at index `k` of the runs. */
  lemma WalkAt(runs: seq<Run>, k: nat, read: string, g: Genome, chrom: string, st: WalkState)
    requires k < |runs|
    ensures Step(runs[k], read, g, chrom, st).Err? ==>
              Walk(runs[k..], read, g, chrom, st) == Err(Step(runs[k], read, g, chrom, st).error)
    ensures Step(runs[k], read, g, chrom, st).Ok? ==>
              Walk(runs[k..], read, g, chrom, st) == Walk(runs[k + 1..], read, g, chrom, Step(runs[k], read, g, chrom, st).value)
  {
    assert runs[k..][0] == runs[k];
    assert runs[k..][1..] == runs[k + 1..];
  }

  // ---------------------------------------------------------------------
  // NM against an independent description of what the walk compares.
  // ---------------------------------------------------------------------

  /**
   * The (read index, reference position) pairs the walk compares, one per
   * base of every M run: each run moves the read cursor (M, I, S) and the
   * reference cursor (M, D, N and also H).
   */
  function MatchPositions(runs: seq<Run>, seqPos: int, genomePos: int): seq<(int, int)>
    decreases |runs|
  {
    if runs == [] then []
    else
      Compared(runs[0], seqPos, genomePos)
      + MatchPositions(runs[1..], seqPos + ReadAdvance(runs[0]), genomePos + RefAdvance(runs[0]))
  }

  /** How far one run moves the read cursor: M, I and S consume read bases. */
  function ReadAdvance(r: Run): nat { if r.op in {"M", "I", "S"} then r.len else 0 }

  /** How far one run moves the reference cursor: M, D, N and also H. */
  function RefAdvance(r: Run): nat { if r.op in {"M", "D", "N", "H"} then r.len else 0 }

  /** The pairs one run compares: one per base of an M run, none otherwise. */
  function Compared(r: Run, seqPos: int, genomePos: int): seq<(int, int)>
  {
    if r.op == "M" then seq(r.len, j => (seqPos + j, genomePos + j)) else []
  }

  /** The read base and the reference base at a compared pair differ, ignoring case. */
  predicate Differs(read: string, g: Genome, chrom: string, p: (int, int))
  {
    0 <= p.0 < |read| && BaseAt(g, chrom, p.1).Ok? && Upper(read[p.0]) != Upper(BaseAt(g, chrom, p.1).value)
  }

  function Mismatches(read: string, g: Genome, chrom: string, ps: seq<(int, int)>): nat
  {
    if ps == [] then 0 else (if Differs(read, g, chrom, ps[0]) then 1 else 0) + Mismatches(read, g, chrom, ps[1..])
  }

  lemma {:induction false} MismatchesAppend(read: string, g: Genome, chrom: string, a: seq<(int, int)>, b: seq<(int, int)>)
    ensures Mismatches(read, g, chrom, a + b) == Mismatches(read, g, chrom, a) + Mismatches(read, g, chrom, b)
  {
    if a != [] {
      assert (a + b)[1..] == a[1..] + b;
      MismatchesAppend(read, g, chrom, a[1..], b);
    } else {
      assert a + b == b;
    }
  }

  lemma {:induction false} MatchBasesCounts(read: string, g: Genome, chrom: string, k: nat, st: WalkState, st': WalkState)
    requires MatchBases(read, g, chrom, k, st) == Ok(st')
    ensures st'.nm == st.nm + Mismatches(read, g, chrom, seq(k, j => (st.seqPos + j, st.genomePos + j)))
    ensures st'.seqPos == st.seqPos + k && st'.genomePos == st.genomePos + k
    decreases k
  {
    if k > 0 {
      var ref := BaseAt(g, chrom, st.genomePos).value;
      var st1 :=
        if Upper(read[st.seqPos]) != Upper(ref)
        then st.(nm := st.nm + 1, toks := st.toks + [Count(st.mval), Mismatch(ref)], mval := 0)
        else st.(mval := st.mval + 1);
      var st2 := st1.(seqPos := st.seqPos + 1, genomePos := st.genomePos + 1);
      MatchBasesCounts(read, g, chrom, k - 1, st2, st');
      var ps := seq(k, j => (st.seqPos + j, st.genomePos + j));
      assert ps[1..] == seq(k - 1, j => (st2.seqPos + j, st2.genomePos + j));
      assert Differs(read, g, chrom, ps[0]) <==> Upper(read[st.seqPos]) != Upper(ref);
    }
  }

  /**
   * NM is the number of compared positions whose bases differ (ignoring
   * case) plus the total D length plus the total I length; S, N and H add
   * nothing.
   */
  lemma {:induction false} WalkCountsEdits(runs: seq<Run>, read: string, g: Genome, chrom: string, st: WalkState, st': WalkState)
    requires Walk(runs, read, g, chrom, st) == Ok(st')
    ensures st'.nm == st.nm + Mismatches(read, g, chrom, MatchPositions(runs, st.seqPos, st.genomePos))
                     + OpTotal(runs, "D") + OpTotal(runs, "I")
    decreases |runs|
  {
    if runs != [] {
      var r := runs[0];
      var st1 := WalkHead(runs, read, g, chrom, st, st');
      WalkCountsEdits(runs[1..], read, g, chrom, st1, st');
      StepCounts(r, read, g, chrom, st, st1);
      MismatchesAppend(read, g, chrom, Compared(r, st.seqPos, st.genomePos),
                       MatchPositions(runs[1..], st1.seqPos, st1.genomePos));
    }
  }

  /** One run adds its mismatches, its deleted and its inserted bases to NM, and moves both cursors. */
  lemma StepCounts(r: Run, read: string, g: Genome, chrom: string, st: WalkState, st': WalkState)
    requires Step(r, read, g, chrom, st) == Ok(st')
    ensures st'.nm == st.nm + Mismatches(read, g, chrom, Compared(r, st.seqPos, st.genomePos))
                     + (if r.op == "D" then r.len else 0) + (if r.op == "I" then r.len else 0)
    ensures st'.seqPos == st.seqPos + ReadAdvance(r) && st'.genomePos == st.genomePos + RefAdvance(r)
  {
    if r.op == "M" {
      MatchBasesCounts(read, g, chrom, r.len, st, st');
    }
  }

  /** The same runs compared from a reference cursor `shift` further on. */
  function ShiftReference(ps: seq<(int, int)>, shift: int): (r: seq<(int, int)>)
    ensures |r| == |ps| && forall k :: 0 <= k < |ps| ==> r[k] == (ps[k].0, ps[k].1 + shift)
  {
    seq(|ps|, k requires 0 <= k < |ps| => (ps[k].0, ps[k].1 + shift))
  }

  lemma ShiftAppend(a: seq<(int, int)>, b: seq<(int, int)>, shift: int)
    ensures ShiftReference(a + b, shift) == ShiftReference(a, shift) + ShiftReference(b, shift)
  {
  }

  lemma ShiftCompared(r: Run, seqPos: int, genomePos: int, shift: int)
    ensures Compared(r, seqPos, genomePos + shift) == ShiftReference(Compared(r, seqPos, genomePos), shift)
  {
  }

  lemma {:induction false} MatchPositionsShift(runs: seq<Run>, seqPos: int, genomePos: int, shift: int)
    ensures MatchPositions(runs, seqPos, genomePos + shift) == ShiftReference(MatchPositions(runs, seqPos, genomePos), shift)
    decreases |runs|
  {
    if runs != [] {
      var r := runs[0];
      var s', g' := seqPos + ReadAdvance(r), genomePos + RefAdvance(r);
      var C, T := Compared(r, seqPos, genomePos), MatchPositions(runs[1..], s', g');
      MatchPositionsShift(runs[1..], s', g', shift);
      ShiftAppend(C, T, shift);
      ShiftCompared(r, seqPos, genomePos, shift);
      calc {
        MatchPositions(runs, seqPos, genomePos + shift);
        Compared(r, seqPos, genomePos + shift) + MatchPositions(runs[1..], s', g' + shift);
        ShiftReference(C, shift) + ShiftReference(T, shift);
        ShiftReference(C + T, shift);
      }
    }
  }

  /**
   * A leading hard clip of length `h` moves every reference position the walk
   * compares `h` bases to the right, although a hard clip consumes no
   * reference.
   */
  lemma LeadingHardClipShifts(runs: seq<Run>, h: nat, seqPos: int, genomePos: int)
    ensures MatchPositions([Run("H", h)] + runs, seqPos, genomePos)
         == ShiftReference(MatchPositions(runs, seqPos, genomePos), h)
  {
    assert ([Run("H", h)] + runs)[1..] == runs;
    MatchPositionsShift(runs, seqPos, genomePos, h);
  }

  // ---------------------------------------------------------------------
  // Shape and labels of the generated MD.
  // ---------------------------------------------------------------------

  /** The labels (M, X or D per reference base) a token list stands for. */
  function MdLabels(toks: seq<MdToken>): seq<string> { AlignedLabels(TokenRuns(toks)) }

  /** The edits a token list records: its mismatches plus its deleted bases. */
  function TokenEdits(toks: seq<MdToken>): nat { OpTotal(TokenRuns(toks), "X") + OpTotal(TokenRuns(toks), "D") }

  /** What the walk keeps true of the tokens it has emitted. */
  predicate Generated(toks: seq<MdToken>)
  {
    Paired(toks) && forall k :: 0 <= k < |toks| ==> toks[k].Deletion? ==> |toks[k].bases| > 0
  }

  predicate GenomeBases(g: Genome, chrom: string)
  {
    chrom in g ==> AllBases(g[chrom])
  }

  lemma TokenRunsAppend(a: seq<MdToken>, b: seq<MdToken>)
    ensures TokenRuns(a + b) == TokenRuns(a) + TokenRuns(b)
  {
  }

  /** Appending a count and one more token: labels, edits and shape. */
  lemma EmitPair(toks: seq<MdToken>, n: nat, t: MdToken)
    requires Generated(toks) && !t.Count? && TokenOk(t) && (t.Deletion? ==> |t.bases| > 0)
    ensures Generated(toks + [Count(n), t])
    ensures MdLabels(toks + [Count(n), t]) == MdLabels(toks) + Rep("M", n) + AlignedLabels([TokenRun(t)])
    ensures TokenEdits(toks + [Count(n), t]) == TokenEdits(toks) + (if t.Mismatch? then 1 else |t.bases|)
  {
    EmitPairShape(toks, n, t);
    TokenRunsPair(toks, n, t);
    EmitPairLabels(TokenRuns(toks), n, TokenRun(t));
    EmitPairEdits(TokenRuns(toks), n, TokenRun(t));
  }

  lemma EmitPairShape(toks: seq<MdToken>, n: nat, t: MdToken)
    requires Generated(toks) && !t.Count? && TokenOk(t) && (t.Deletion? ==> |t.bases| > 0)
    ensures Generated(toks + [Count(n), t])
  {
    PairedAppend(toks, n, t);
    var toks' := toks + [Count(n), t];
    assert forall k :: 0 <= k < |toks| ==> toks'[k] == toks[k];
  }

  lemma TokenRunsPair(toks: seq<MdToken>, n: nat, t: MdToken)
    ensures TokenRuns(toks + [Count(n), t]) == TokenRuns(toks) + [Run("M", n), TokenRun(t)]
  {
    TokenRunsAppend(toks, [Count(n), t]);
    assert TokenRuns([Count(n), t]) == [Run("M", n), TokenRun(t)];
  }

  lemma EmitPairLabels(rs: seq<Run>, n: nat, r: Run)
    requires !Passthrough(r.op)
    ensures AlignedLabels(rs + [Run("M", n), r]) == AlignedLabels(rs) + Rep("M", n) + AlignedLabels([r])
  {
    AlignedLabelsAppend(rs, [Run("M", n), r]);
    assert [Run("M", n), r][1..] == [r];
  }

  lemma EmitPairEdits(rs: seq<Run>, n: nat, r: Run)
    ensures OpTotal(rs + [Run("M", n), r], "X") + OpTotal(rs + [Run("M", n), r], "D")
         == OpTotal(rs, "X") + OpTotal(rs, "D") + (if r.op in {"X", "D"} then r.len else 0)
  {
    OpTotalAppend(rs, [Run("M", n), r], "X");
    OpTotalAppend(rs, [Run("M", n), r], "D");
    OpTotalPair(Run("M", n), r, "X");
    OpTotalPair(Run("M", n), r, "D");
  }

  lemma OpTotalPair(a: Run, b: Run, op: string)
    ensures OpTotal([a, b], op) == (if a.op == op then a.len else 0) + (if b.op == op then b.len else 0)
  {
    assert [a, b][1..] == [b];
    assert [b][1..] == [];
    assert OpTotal([b], op) == (if b.op == op then b.len else 0) + OpTotal([], op);
  }

  /** CIGAR runs the walk and the merge both handle: standard operations, counts above zero. */
  predicate Walkable(runs: seq<Run>)
  {
    StandardOps(runs) && forall k :: 0 <= k < |runs| ==> runs[k].len > 0
  }

  lemma WalkableTail(runs: seq<Run>)
    requires Walkable(runs) && runs != []
    ensures Walkable(runs[1..]) && runs[0].op in {"M", "I", "D", "N", "S", "H"} && runs[0].len > 0
  {
    assert forall k :: 0 <= k < |runs| - 1 ==> runs[1..][k] == runs[k + 1];
  }

  lemma LabelsCons(P: seq<string>, runs: seq<Run>)
    requires runs != []
    ensures P + AlignedLabels([runs[0]]) + AlignedLabels(runs[1..]) == P + AlignedLabels(runs)
    ensures OpTotal([runs[0]], "I") + OpTotal(runs[1..], "I") == OpTotal(runs, "I")
  {
    assert runs == [runs[0]] + runs[1..];
    AlignedLabelsAppend([runs[0]], runs[1..]);
    OpTotalAppend([runs[0]], runs[1..], "I");
  }

  /** The running invariant of the walk over the M positions of one run. */
  predicate WalkInv(P: seq<string>, st: WalkState, inserted: nat)
  {
    Generated(st.toks) &&
    Fits(P, MdLabels(st.toks) + Rep("M", st.mval)) &&
    st.nm == TokenEdits(st.toks) + inserted
  }

  lemma {:induction false} MatchBasesKeeps(read: string, g: Genome, chrom: string, k: nat, st: WalkState, st': WalkState,
                                           P: seq<string>, inserted: nat)
    requires GenomeBases(g, chrom) && WalkInv(P, st, inserted)
    requires MatchBases(read, g, chrom, k, st) == Ok(st')
    ensures WalkInv(P + Rep("M", k), st', inserted)
    decreases k
  {
    if k == 0 {
      assert P + Rep("M", 0) == P;
    } else {
      var ref := BaseAt(g, chrom, st.genomePos).value;
      var st1 :=
        if Upper(read[st.seqPos]) != Upper(ref)
        then st.(nm := st.nm + 1, toks := st.toks + [Count(st.mval), Mismatch(ref)], mval := 0)
        else st.(mval := st.mval + 1);
      var st2 := st1.(seqPos := st.seqPos + 1, genomePos := st.genomePos + 1);
      assert MatchBases(read, g, chrom, k - 1, st2) == Ok(st');
      if Upper(read[st.seqPos]) != Upper(ref) {
        assert IsBase(ref) by {
          assert ref == g[chrom][st.genomePos - 1];
        }
        MismatchKeeps(P, st, inserted, ref);
      } else {
        MatchKeeps(P, st, inserted);
      }
      assert WalkInv(P + ["M"], st1, inserted);
      assert WalkInv(P + ["M"], st2, inserted);
      MatchBasesKeeps(read, g, chrom, k - 1, st2, st', P + ["M"], inserted);
      assert (P + ["M"]) + Rep("M", k - 1) == P + Rep("M", k);
    }
  }

  /** A base that differs from the reference ends the match run and adds a mismatch token. */
  lemma MismatchKeeps(P: seq<string>, st: WalkState, inserted: nat, ref: char)
    requires WalkInv(P, st, inserted) && IsBase(ref)
    ensures WalkInv(P + ["M"], st.(nm := st.nm + 1, toks := st.toks + [Count(st.mval), Mismatch(ref)], mval := 0), inserted)
  {
    var toks' := st.toks + [Count(st.mval), Mismatch(ref)];
    EmitPair(st.toks, st.mval, Mismatch(ref));
    assert AlignedLabels([Run("X", 1)]) == ["X"];
    FitsAppend(P, MdLabels(st.toks) + Rep("M", st.mval), ["M"], ["X"]);
    assert MdLabels(toks') + Rep("M", 0) == MdLabels(st.toks) + Rep("M", st.mval) + ["X"];
  }

  /** A base that agrees with the reference extends the match run. */
  lemma MatchKeeps(P: seq<string>, st: WalkState, inserted: nat)
    requires WalkInv(P, st, inserted)
    ensures WalkInv(P + ["M"], st.(mval := st.mval + 1), inserted)
  {
    assert Rep("M", st.mval + 1) == Rep("M", st.mval) + ["M"];
    FitsAppend(P, MdLabels(st.toks) + Rep("M", st.mval), ["M"], ["M"]);
    assert MdLabels(st.toks) + Rep("M", st.mval + 1) == (MdLabels(st.toks) + Rep("M", st.mval)) + ["M"];
  }

  /** A deletion ends the match run and adds a deletion token of the deleted reference bases. */
  lemma DeletionKeeps(P: seq<string>, st: WalkState, inserted: nat, bs: string)
    requires WalkInv(P, st, inserted) && AllBases(bs) && |bs| > 0
    ensures WalkInv(P + Rep("D", |bs|),
                    st.(nm := st.nm + |bs|, toks := st.toks + [Count(st.mval), Deletion(bs)], mval := 0), inserted)
  {
    var toks' := st.toks + [Count(st.mval), Deletion(bs)];
    EmitPair(st.toks, st.mval, Deletion(bs));
    assert TokenRun(Deletion(bs)) == Run("D", |bs|);
    assert [Run("D", |bs|)][1..] == [];
    assert AlignedLabels([Run("D", |bs|)]) == Rep("D", |bs|);
    FitsAppend(P, MdLabels(st.toks) + Rep("M", st.mval), Rep("D", |bs|), Rep("D", |bs|));
    assert MdLabels(toks') + Rep("M", 0) == MdLabels(st.toks) + Rep("M", st.mval) + Rep("D", |bs|);
  }

  lemma StepKeeps(r: Run, read: string, g: Genome, chrom: string, st: WalkState, st': WalkState,
                  P: seq<string>, inserted: nat)
    requires GenomeBases(g, chrom) && WalkInv(P, st, inserted)
    requires r.op in {"M", "I", "D", "N", "S", "H"} && r.len > 0
    requires Step(r, read, g, chrom, st) == Ok(st')
    ensures WalkInv(P + AlignedLabels([r]), st', inserted + OpTotal([r], "I"))
  {
    assert [r][1..] == [];
    assert OpTotal([r], "I") == if r.op == "I" then r.len else 0;
    if r.op == "M" {
      assert AlignedLabels([r]) == Rep("M", r.len);
      MatchBasesKeeps(read, g, chrom, r.len, st, st', P, inserted);
    } else if r.op == "D" {
      var bs := BasesAt(g, chrom, st.genomePos, st.genomePos + r.len - 1).value;
      assert AllBases(bs) && |bs| == r.len;
      DeletionKeeps(P, st, inserted, bs);
      assert AlignedLabels([r]) == Rep("D", |bs|);
    } else {
      assert Passthrough(r.op);
      assert AlignedLabels([r]) == [];
      assert P + [] == P;
      assert st'.toks == st.toks && st'.mval == st.mval;
    }
  }

  /**
   * Over a CIGAR of M/I/D/N/S/H runs with counts above zero, against a
   * reference whose bases cannot be misread in an MD value, the walk keeps
   * its tokens shaped, makes their labels fit the CIGAR's base for base and
   * counts in NM exactly the tokens' edits plus the inserted bases.
   */
  lemma {:induction false} WalkKeeps(runs: seq<Run>, read: string, g: Genome, chrom: string, st: WalkState, st': WalkState,
                                     P: seq<string>, inserted: nat)
    requires GenomeBases(g, chrom) && WalkInv(P, st, inserted)
    requires Walkable(runs)
    requires Walk(runs, read, g, chrom, st) == Ok(st')
    ensures WalkInv(P + AlignedLabels(runs), st', inserted + OpTotal(runs, "I"))
    decreases |runs|
  {
    if runs == [] {
      assert P + [] == P;
    } else {
      var st1 := WalkHead(runs, read, g, chrom, st, st');
      WalkableTail(runs);
      StepKeeps(runs[0], read, g, chrom, st, st1, P, inserted);
      var P1 := P + AlignedLabels([runs[0]]);
      var ins1 := inserted + OpTotal([runs[0]], "I");
      WalkKeeps(runs[1..], read, g, chrom, st1, st', P1, ins1);
      LabelsCons(P, runs);
    }
  }

  lemma {:induction false} PairedLast(toks: seq<MdToken>)
    requires Paired(toks) && toks != []
    ensures !toks[|toks| - 1].Count?
    decreases |toks|
  {
    if |toks| > 2 {
      assert toks[2..][|toks| - 3] == toks[|toks| - 1];
      PairedLast(toks[2..]);
    }
  }

  /**
   * Closing the MD after the walk: the tokens are shaped, the last run is
   * never of length zero (no trailing `0`), and closing adds the pending
   * matches to the labels but no edit.
   */
  lemma FinalTokensClose(st: WalkState)
    requires Generated(st.toks)
    ensures Shaped(FinalTokens(st))
    ensures var rs := TokenRuns(FinalTokens(st)); rs == [] || rs[|rs| - 1].len > 0
    ensures MdLabels(FinalTokens(st)) == MdLabels(st.toks) + Rep("M", st.mval)
    ensures TokenEdits(FinalTokens(st)) == TokenEdits(st.toks)
  {
    if st.mval > 0 {
      CloseWithCount(st.toks, st.mval);
    } else {
      assert FinalTokens(st) == st.toks;
      assert MdLabels(st.toks) + Rep("M", 0) == MdLabels(st.toks);
      if st.toks != [] {
        PairedLast(st.toks);
        assert TokenRuns(st.toks)[|st.toks| - 1] == TokenRun(st.toks[|st.toks| - 1]);
      }
    }
  }

  /** Closing with a pending match count `n > 0`. */
  lemma CloseWithCount(toks: seq<MdToken>, n: nat)
    requires Generated(toks) && n > 0
    ensures Shaped(toks + [Count(n)])
    ensures TokenRuns(toks + [Count(n)]) == TokenRuns(toks) + [Run("M", n)]
    ensures MdLabels(toks + [Count(n)]) == MdLabels(toks) + Rep("M", n)
    ensures TokenEdits(toks + [Count(n)]) == TokenEdits(toks)
  {
    PairedClose(toks, n);
    TokenRunsAppend(toks, [Count(n)]);
    assert TokenRuns([Count(n)]) == [Run("M", n)];
    var rs := TokenRuns(toks);
    AlignedLabelsAppend(rs, [Run("M", n)]);
    OpTotalAppend(rs, [Run("M", n)], "X");
    OpTotalAppend(rs, [Run("M", n)], "D");
    assert [Run("M", n)][1..] == [];
  }

  /**
   * What `getNMandMDFlags` produces from a CIGAR of standard operations with
   * counts above zero: an MD value of the shape `MD:Z:` followed by counts
   * separated by one mismatching reference base or `^` and deleted bases,
   * never ending in a zero count; its labels fit the CIGAR base for base; and
   * NM counts exactly its mismatches and deleted bases plus the inserted bases.
   */
  lemma RecomputeShape(cigar: string, read: string, pos: int, chrom: string, g: Genome,
                       ops: seq<string>, counts: seq<nat>, st: WalkState)
    requires SplitCigar(cigar) == Ok((ops, counts)) && Walkable(Zip(ops, counts))
    requires GenomeBases(g, chrom)
    requires RecomputeState(cigar, read, pos, chrom, g) == Ok(st)
    ensures Shaped(FinalTokens(st))
    ensures var rs := TokenRuns(FinalTokens(st)); rs == [] || rs[|rs| - 1].len > 0
    ensures Fits(AlignedLabels(Zip(ops, counts)), MdLabels(FinalTokens(st)))
    ensures st.nm == TokenEdits(FinalTokens(st)) + OpTotal(Zip(ops, counts), "I")
  {
    var st0 := InitialState(pos);
    assert MdLabels([]) + Rep("M", 0) == [];
    assert WalkInv([], st0, 0);
    WalkKeeps(Zip(ops, counts), read, g, chrom, st0, st, [], 0);
    assert [] + AlignedLabels(Zip(ops, counts)) == AlignedLabels(Zip(ops, counts));
    FinalTokensClose(st);
  }

  /** The bases an MD token list covers: its counts, its mismatches and its deleted bases. */
  function TokenBases(toks: seq<MdToken>): nat { AlignedTotal(TokenRuns(toks)) }

  /** Appending a count and one more token covers the count and that token's bases. */
  lemma TokenBasesEmit(toks: seq<MdToken>, n: nat, t: MdToken)
    ensures TokenBases(toks + [Count(n), t]) == TokenBases(toks) + n + TokenRun(t).len
  {
    TokenRunsAppend(toks, [Count(n), t]);
    AlignedTotalAppend(TokenRuns(toks), TokenRuns([Count(n), t]));
    var rs := TokenRuns([Count(n), t]);
    assert rs == [Run("M", n), TokenRun(t)] && rs[1..] == [TokenRun(t)] && rs[1..][1..] == [];
    assert !Passthrough(TokenRun(t).op);
    assert AlignedTotal(rs[1..]) == TokenRun(t).len;
  }

  /**
   * Comparing k bases covers k more bases with the tokens written so far
   * and the pending match count.
   */
  lemma {:induction false} MatchBasesLength(read: string, g: Genome, chrom: string, k: nat, st: WalkState, st': WalkState)
    requires MatchBases(read, g, chrom, k, st) == Ok(st')
    ensures TokenBases(st'.toks) + st'.mval == TokenBases(st.toks) + st.mval + k
    decreases k
  {
    if k > 0 {
      var ref := BaseAt(g, chrom, st.genomePos).value;
      var st1 :=
        if Upper(read[st.seqPos]) != Upper(ref)
        then st.(nm := st.nm + 1, toks := st.toks + [Count(st.mval), Mismatch(ref)], mval := 0)
        else st.(mval := st.mval + 1);
      var st2 := st1.(seqPos := st.seqPos + 1, genomePos := st.genomePos + 1);
      MatchBasesLength(read, g, chrom, k - 1, st2, st');
      if Upper(read[st.seqPos]) != Upper(ref) {
        TokenBasesEmit(st.toks, st.mval, Mismatch(ref));
      }
    }
  }

  /** One run covers its length when it is M or D, and nothing otherwise. */
  lemma StepLength(r: Run, read: string, g: Genome, chrom: string, st: WalkState, st': WalkState)
    requires Step(r, read, g, chrom, st) == Ok(st')
    ensures TokenBases(st'.toks) + st'.mval
            == TokenBases(st.toks) + st.mval + (if r.op == "M" || r.op == "D" then r.len else 0)
  {
    if r.op == "M" {
      MatchBasesLength(read, g, chrom, r.len, st, st');
    } else if r.op == "D" {
      var bs := BasesAt(g, chrom, st.genomePos, st.genomePos + r.len - 1).value;
      TokenBasesEmit(st.toks, st.mval, Deletion(bs));
    }
  }

  /** A walk covers the M total plus the D total of its runs, whatever their operations and counts. */
  lemma {:induction false} WalkLength(runs: seq<Run>, read: string, g: Genome, chrom: string, st: WalkState, st': WalkState)
    requires Walk(runs, read, g, chrom, st) == Ok(st')
    ensures TokenBases(st'.toks) + st'.mval == TokenBases(st.toks) + st.mval + OpTotal(runs, "M") + OpTotal(runs, "D")
    decreases |runs|
  {
    if runs != [] {
      var st1 := WalkHead(runs, read, g, chrom, st, st');
      StepLength(runs[0], read, g, chrom, st, st1);
      WalkLength(runs[1..], read, g, chrom, st1, st');
    }
  }

  /**
   * The length of the MD value in bases (its counts, mismatches and deleted
   * bases) is the total of the CIGAR's M and D runs, for every CIGAR the
   * walk gets through.
   */
  lemma RecomputeMdLength(cigar: string, read: string, pos: int, chrom: string, g: Genome,
                          ops: seq<string>, counts: seq<nat>, st: WalkState)
    requires SplitCigar(cigar) == Ok((ops, counts))
    requires RecomputeState(cigar, read, pos, chrom, g) == Ok(st)
    ensures AlignedTotal(TokenRuns(FinalTokens(st))) == OpTotal(Zip(ops, counts), "M") + OpTotal(Zip(ops, counts), "D")
  {
    WalkLength(Zip(ops, counts), read, g, chrom, InitialState(pos), st);
    if st.mval > 0 {
      TokenRunsAppend(st.toks, [Count(st.mval)]);
      AlignedTotalAppend(TokenRuns(st.toks), TokenRuns([Count(st.mval)]));
      assert TokenRuns([Count(st.mval)]) == [Run("M", st.mval)];
    } else {
      assert FinalTokens(st) == st.toks;
    }
  }

  /**
   * NM is the number of compared bases that differ, ignoring case, plus the
   * deleted and the inserted bases of the CIGAR.
   */
  lemma RecomputeNm(cigar: string, read: string, pos: int, chrom: string, g: Genome,
                    ops: seq<string>, counts: seq<nat>, st: WalkState)
    requires SplitCigar(cigar) == Ok((ops, counts))
    requires RecomputeState(cigar, read, pos, chrom, g) == Ok(st)
    ensures st.nm == Mismatches(read, g, chrom, MatchPositions(Zip(ops, counts), 0, pos))
                     + OpTotal(Zip(ops, counts), "D") + OpTotal(Zip(ops, counts), "I")
  {
    WalkCountsEdits(Zip(ops, counts), read, g, chrom, InitialState(pos), st);
  }

  /** The NM string is the decimal numeral of the count, and the MD value starts with `MD:Z:`. */
  lemma NmMdFlagsFormat(cigar: string, read: string, pos: int, chrom: string, g: Genome, nm: string, md: string)
    requires NmMdFlags(cigar, read, pos, chrom, g) == Ok((nm, md))
    ensures RecomputeState(cigar, read, pos, chrom, g).Ok?
    ensures AllDigits(nm) && ParseNat(nm) == RecomputeState(cigar, read, pos, chrom, g).value.nm
    ensures StartsWith(md, "MD:Z:")
  {
    var st := RecomputeState(cigar, read, pos, chrom, g).value;
    ParseNatToString(st.nm);
  }
}
