/** The two-cursor reconciliation of CIGAR runs with MD runs (`mergeMDwithCIGAR`). */
module Merge {
  import opened Results
  import opened Text
  import opened Cigar
  import opened MdTag

  /** CIGAR operations the MD tag cannot express; the sweep copies them unchanged. */
  predicate Passthrough(op: string) { op == "H" || op == "S" || op == "I" || op == "N" }

  /**
   * One step of the sweep per call. `cigar` and `md` are the runs still under
   * and after each cursor, the head carrying what is left of its count.
   * Running out of CIGAR runs while MD runs remain, or out of MD runs at an
   * aligned CIGAR run, is Python's IndexError.
   */
  function Sweep(cigar: seq<Run>, md: seq<Run>): Result<seq<Run>>
    decreases |cigar| + |md|
  {
    if cigar == [] then
      (if md == [] then Ok([]) else Err(IndexOutOfRange))
    else if Passthrough(cigar[0].op) then
      Prepend(cigar[0], Sweep(cigar[1..], md))
    else if md == [] then
      Err(IndexOutOfRange)
    else
      var c, m := cigar[0], md[0];
      if c.len < m.len then
        Prepend(c, Sweep(cigar[1..], [Run(m.op, m.len - c.len)] + md[1..]))
      else if c.len > m.len then
        Prepend(m, Sweep([Run(c.op, c.len - m.len)] + cigar[1..], md[1..]))
      else
        Prepend(m, Sweep(cigar[1..], md[1..]))
  }

  /** What `mergeMDwithCIGAR` computes from the record's CIGAR and MD columns. */
  function MergeSpec(cigar: string, md: string): Result<seq<Run>>
  {
    match SplitCigar(cigar)
    case Err(e) => Err(e)
    case Ok((ops, counts)) =>
      if |ops| > |counts| then Err(IndexOutOfRange)
      else
        match MdRunsOf(md)
        case Err(e) => Err(e)
        case Ok(mdRuns) => Sweep(ZipFrom(ops, counts, 0), mdRuns)
  }

  // ---------------------------------------------------------------------
  // Measures on run lists.
  // ---------------------------------------------------------------------

  /** The runs of the kinds the sweep copies through, in order. */
  function PassthroughRuns(runs: seq<Run>): seq<Run>
  {
    if runs == [] then []
    else (if Passthrough(runs[0].op) then [runs[0]] else []) + PassthroughRuns(runs[1..])
  }

  /** Total length of the runs of the kinds the MD tag can express. */
  function AlignedTotal(runs: seq<Run>): nat
  {
    if runs == [] then 0
    else (if Passthrough(runs[0].op) then 0 else runs[0].len) + AlignedTotal(runs[1..])
  }

  /** Total length of the runs with operation `op`. */
  function OpTotal(runs: seq<Run>, op: string): nat
  {
    if runs == [] then 0
    else (if runs[0].op == op then runs[0].len else 0) + OpTotal(runs[1..], op)
  }

  predicate NoPassthrough(runs: seq<Run>)
  {
    forall k :: 0 <= k < |runs| ==> !Passthrough(runs[k].op)
  }

  lemma PrependOk(r: Run, res: Result<seq<Run>>, out: seq<Run>)
    requires Prepend(r, res) == Ok(out)
    ensures res.Ok? && out == [r] + res.value
  {
  }

  // ---------------------------------------------------------------------
  // Passthrough and conservation.
  // ---------------------------------------------------------------------

  /**
   * On success, the H/S/I/N runs of the merged stream are exactly those of the
   * CIGAR, in the same order and with the same counts.
   */
  lemma {:induction false} SweepPassthrough(cigar: seq<Run>, md: seq<Run>, out: seq<Run>)
    requires NoPassthrough(md)
    requires Sweep(cigar, md) == Ok(out)
    ensures PassthroughRuns(out) == PassthroughRuns(cigar)
    decreases |cigar| + |md|
  {
    if cigar == [] {
    } else if Passthrough(cigar[0].op) {
      PrependOk(cigar[0], Sweep(cigar[1..], md), out);
      SweepPassthrough(cigar[1..], md, out[1..]);
    } else {
      var c, m := cigar[0], md[0];
      if c.len < m.len {
        var md' := [Run(m.op, m.len - c.len)] + md[1..];
        PrependOk(c, Sweep(cigar[1..], md'), out);
        SweepPassthrough(cigar[1..], md', out[1..]);
      } else if c.len > m.len {
        var cigar' := [Run(c.op, c.len - m.len)] + cigar[1..];
        PrependOk(m, Sweep(cigar', md[1..]), out);
        SweepPassthrough(cigar', md[1..], out[1..]);
        assert cigar'[1..] == cigar[1..];
      } else {
        PrependOk(m, Sweep(cigar[1..], md[1..]), out);
        SweepPassthrough(cigar[1..], md[1..], out[1..]);
      }
    }
  }

  /**
   * On success, the merged stream's MD-expressible runs add up both to the
   * CIGAR's total outside H/S/I/N and to the MD total.
   */
  lemma {:induction false} SweepConserves(cigar: seq<Run>, md: seq<Run>, out: seq<Run>)
    requires NoPassthrough(md)
    requires Sweep(cigar, md) == Ok(out)
    ensures AlignedTotal(out) == AlignedTotal(cigar) == AlignedTotal(md)
    decreases |cigar| + |md|
  {
    if cigar == [] {
    } else if Passthrough(cigar[0].op) {
      PrependOk(cigar[0], Sweep(cigar[1..], md), out);
      SweepConserves(cigar[1..], md, out[1..]);
    } else {
      var c, m := cigar[0], md[0];
      if c.len < m.len {
        var md' := [Run(m.op, m.len - c.len)] + md[1..];
        PrependOk(c, Sweep(cigar[1..], md'), out);
        assert md'[1..] == md[1..];
        SweepConserves(cigar[1..], md', out[1..]);
      } else if c.len > m.len {
        var cigar' := [Run(c.op, c.len - m.len)] + cigar[1..];
        PrependOk(m, Sweep(cigar', md[1..]), out);
        assert cigar'[1..] == cigar[1..];
        SweepConserves(cigar', md[1..], out[1..]);
      } else {
        PrependOk(m, Sweep(cigar[1..], md[1..]), out);
        SweepConserves(cigar[1..], md[1..], out[1..]);
      }
    }
  }

  /** The sweep fails when the CIGAR and the MD disagree on the aligned length. */
  lemma SweepFailsOnLengthMismatch(cigar: seq<Run>, md: seq<Run>)
    requires NoPassthrough(md)
    requires AlignedTotal(cigar) != AlignedTotal(md)
    ensures Sweep(cigar, md).Err?
  {
    if Sweep(cigar, md).Ok? {
      SweepConserves(cigar, md, Sweep(cigar, md).value);
    }
  }

  /**
   * An MD whose last run has length zero (such as `9A0`) makes the sweep fail
   * against any CIGAR whose counts are all above zero: the zero run is still
   * waiting when the CIGAR runs out.
   */
  lemma {:induction false} SweepFailsOnTrailingZero(cigar: seq<Run>, md: seq<Run>)
    requires |md| > 0 && md[|md| - 1].len == 0
    requires forall k :: 0 <= k < |cigar| ==> cigar[k].len > 0
    ensures Sweep(cigar, md).Err?
    decreases |cigar| + |md|
  {
    if cigar == [] {
    } else if Passthrough(cigar[0].op) {
      SweepFailsOnTrailingZero(cigar[1..], md);
    } else {
      var c, m := cigar[0], md[0];
      if c.len < m.len {
        var md' := [Run(m.op, m.len - c.len)] + md[1..];
        assert md'[|md'| - 1] == md[|md| - 1];
        SweepFailsOnTrailingZero(cigar[1..], md');
      } else if c.len > m.len {
        var cigar' := [Run(c.op, c.len - m.len)] + cigar[1..];
        if |md| > 1 {
          assert md[1..][|md| - 2] == md[|md| - 1];
          SweepFailsOnTrailingZero(cigar', md[1..]);
        } else {
          assert Sweep(cigar', md[1..]) == Err(IndexOutOfRange);
        }
      } else {
        SweepFailsOnTrailingZero(cigar[1..], md[1..]);
      }
    }
  }

  /** `6M` merged with the MD runs `4M 1X 1M` gives the unified stream `4M 1X 1M`. */
  lemma SweepExample()
    ensures Sweep([Run("M", 6)], [Run("M", 4), Run("X", 1), Run("M", 1)])
         == Ok([Run("M", 4), Run("X", 1), Run("M", 1)])
  {
    var m1, x1 := Run("M", 1), Run("X", 1);
    assert [m1][1..] == [];
    assert [m1] + [] == [m1];
    assert Sweep([m1], [m1]) == Prepend(m1, Sweep([], [])) == Ok([m1]);
    assert [x1, m1][1..] == [m1];
    assert [Run("M", 1)] + [m1][1..] == [m1];
    assert [x1] + [m1] == [x1, m1];
    assert Sweep([Run("M", 2)], [x1, m1]) == Prepend(x1, Sweep([m1], [m1])) == Ok([x1, m1]);
    assert [Run("M", 4)] + [x1, m1] == [Run("M", 4), x1, m1];
    assert [Run("M", 4), x1, m1][1..] == [x1, m1];
    assert [Run("M", 2)] + [Run("M", 6)][1..] == [Run("M", 2)];
  }

  // ---------------------------------------------------------------------
  // Per-base labels: the operation each aligned base receives.
  // ---------------------------------------------------------------------

  function Rep(op: string, n: nat): (r: seq<string>)
    ensures |r| == n && forall i :: 0 <= i < n ==> r[i] == op
  {
    seq(n, _ => op)
  }

  /** One label per base of every run the MD tag can express, in order. */
  function AlignedLabels(runs: seq<Run>): seq<string>
  {
    if runs == [] then []
    else (if Passthrough(runs[0].op) then [] else Rep(runs[0].op, runs[0].len)) + AlignedLabels(runs[1..])
  }

  /** A CIGAR label and an MD label for the same base agree: X refines M. */
  predicate LabelFits(cigarLabel: string, mdLabel: string)
  {
    if mdLabel == "X" then cigarLabel == "M" else cigarLabel == mdLabel
  }

  predicate Fits(cigarLabels: seq<string>, mdLabels: seq<string>)
  {
    |cigarLabels| == |mdLabels| &&
    forall i :: 0 <= i < |cigarLabels| ==> LabelFits(cigarLabels[i], mdLabels[i])
  }

  lemma RepSplit(op: string, n: nat, k: nat, rest: seq<string>)
    requires k <= n
    ensures (Rep(op, n) + rest)[k..] == Rep(op, n - k) + rest
  {
  }

  lemma RepJoin(op: string, a: nat, b: nat, rest: seq<string>)
    ensures Rep(op, a) + (Rep(op, b) + rest) == Rep(op, a + b) + rest
  {
  }

  lemma {:induction false} AlignedLabelsLength(runs: seq<Run>)
    ensures |AlignedLabels(runs)| == AlignedTotal(runs)
  {
    if runs != [] {
      AlignedLabelsLength(runs[1..]);
    }
  }

  lemma {:induction false} ZeroTotalLastRun(runs: seq<Run>)
    requires |runs| > 0 && NoPassthrough(runs) && AlignedTotal(runs) == 0
    ensures runs[|runs| - 1].len == 0
  {
    if |runs| > 1 {
      assert runs[1..][|runs| - 2] == runs[|runs| - 1];
      ZeroTotalLastRun(runs[1..]);
    }
  }

  /** The MD runs a well-formed MD tag decodes to: M/X/D only, mismatch runs of one base. */
  predicate MdRunsShape(md: seq<Run>)
  {
    forall k :: 0 <= k < |md| ==> md[k].op in {"M", "X", "D"} && (md[k].op == "X" ==> md[k].len <= 1)
  }

  lemma LabelsOfPrepend(r: Run, rest: seq<Run>)
    requires !Passthrough(r.op)
    ensures AlignedLabels([r] + rest) == Rep(r.op, r.len) + AlignedLabels(rest)
  {
    assert ([r] + rest)[1..] == rest;
  }

  lemma LabelsHead(runs: seq<Run>)
    requires runs != [] && !Passthrough(runs[0].op)
    ensures AlignedLabels(runs) == Rep(runs[0].op, runs[0].len) + AlignedLabels(runs[1..])
  {
  }

  lemma LastOfTail(md: seq<Run>)
    requires |md| > 0 && md[|md| - 1].len > 0
    ensures md[1..] == [] || md[1..][|md[1..]| - 1].len > 0
  {
    if |md| > 1 {
      assert md[1..][|md[1..]| - 1] == md[|md| - 1];
    }
  }

  lemma FitsDrop(a: seq<string>, b: seq<string>, k: nat)
    requires Fits(a, b) && k <= |a|
    ensures Fits(a[k..], b[k..])
  {
    assert forall i :: 0 <= i < |a| - k ==> a[k..][i] == a[k + i] && b[k..][i] == b[k + i];
  }

  lemma RepDropAll(op: string, n: nat, rest: seq<string>)
    ensures (Rep(op, n) + rest)[n..] == rest
  {
  }

  /**
   * The CIGAR run is shorter, in labels: the CIGAR labels `a` and the MD
   * labels `b` each start with their head run, and what is left of the MD
   * run, `b'`, continues under the next CIGAR run.
   */
  lemma FitsShorterLabels(a: seq<string>, b: seq<string>, b': seq<string>,
                          cop: string, mop: string, cn: nat, mn: nat, cl: seq<string>, ml: seq<string>)
    requires 0 < cn < mn && mop != "X"
    requires a == Rep(cop, cn) + cl && b == Rep(mop, mn) + ml && b' == Rep(mop, mn - cn) + ml
    requires Fits(a, b)
    ensures cop == mop
    ensures Fits(cl, b')
    ensures Rep(cop, cn) + b' == b
  {
    assert a[0] == cop && b[0] == mop;
    FitsDrop(a, b, cn);
    RepDropAll(cop, cn, cl);
    RepSplit(mop, mn, cn, ml);
    RepJoin(mop, cn, mn - cn, ml);
  }

  /** The MD run is shorter, in labels: what is left of the CIGAR run, `a'`, continues under the next MD run. */
  lemma FitsLongerLabels(a: seq<string>, b: seq<string>, a': seq<string>,
                         cop: string, mop: string, cn: nat, mn: nat, cl: seq<string>, ml: seq<string>)
    requires cn > mn
    requires a == Rep(cop, cn) + cl && b == Rep(mop, mn) + ml && a' == Rep(cop, cn - mn) + cl
    requires Fits(a, b)
    ensures Fits(a', ml)
  {
    FitsDrop(a, b, mn);
    RepSplit(cop, cn, mn, cl);
    RepDropAll(mop, mn, ml);
  }

  /** Both runs have the same length, in labels: both continue with their next runs. */
  lemma FitsEqualLabels(a: seq<string>, b: seq<string>, cop: string, mop: string, n: nat, cl: seq<string>, ml: seq<string>)
    requires a == Rep(cop, n) + cl && b == Rep(mop, n) + ml
    requires Fits(a, b)
    ensures Fits(cl, ml)
  {
    FitsDrop(a, b, n);
    RepDropAll(cop, n, cl);
    RepDropAll(mop, n, ml);
  }

  predicate FollowsMdPre(cigar: seq<Run>, md: seq<Run>)
  {
    (forall k :: 0 <= k < |cigar| ==> cigar[k].len > 0) &&
    MdRunsShape(md) &&
    (md == [] || md[|md| - 1].len > 0) &&
    Fits(AlignedLabels(cigar), AlignedLabels(md))
  }

  /**
   * When the CIGAR's labels fit the MD's base for base, every CIGAR count is
   * above zero and the MD does not end in a zero-length run, the sweep
   * succeeds and the merged stream labels every aligned base as the MD does.
   */
  lemma {:induction false} SweepFollowsMd(cigar: seq<Run>, md: seq<Run>)
    requires forall k :: 0 <= k < |cigar| ==> cigar[k].len > 0
    requires MdRunsShape(md)
    requires md == [] || md[|md| - 1].len > 0
    requires Fits(AlignedLabels(cigar), AlignedLabels(md))
    ensures Sweep(cigar, md).Ok?
    ensures AlignedLabels(Sweep(cigar, md).value) == AlignedLabels(md)
    decreases |cigar| + |md|, 1
  {
    assert FollowsMdPre(cigar, md);
    if cigar == [] {
      if md != [] {
        AlignedLabelsLength(md);
        ZeroTotalLastRun(md);
      }
    } else if Passthrough(cigar[0].op) {
      FollowsPassthrough(cigar, md);
    } else if md == [] {
      assert false;
    } else if cigar[0].len < md[0].len {
      FollowsShorterCigar(cigar, md);
    } else if cigar[0].len > md[0].len {
      FollowsShorterMd(cigar, md);
    } else {
      FollowsEqual(cigar, md);
    }
  }

  lemma {:induction false} FollowsPassthrough(cigar: seq<Run>, md: seq<Run>)
    requires FollowsMdPre(cigar, md) && cigar != [] && Passthrough(cigar[0].op)
    ensures Sweep(cigar, md).Ok?
    ensures AlignedLabels(Sweep(cigar, md).value) == AlignedLabels(md)
    decreases |cigar| + |md|, 0
  {
    assert AlignedLabels(cigar) == AlignedLabels(cigar[1..]);
    SweepFollowsMd(cigar[1..], md);
    var rest := Sweep(cigar[1..], md).value;
    assert ([cigar[0]] + rest)[1..] == rest;
  }

  /** What `FollowsShorterCigar` hands on to the recursive call. */
  lemma ShorterCigarPre(cigar: seq<Run>, md: seq<Run>)
    requires FollowsMdPre(cigar, md) && cigar != [] && md != [] && !Passthrough(cigar[0].op)
    requires cigar[0].len < md[0].len
    ensures var md' := [Run(md[0].op, md[0].len - cigar[0].len)] + md[1..];
      FollowsMdPre(cigar[1..], md') &&
      Rep(cigar[0].op, cigar[0].len) + AlignedLabels(md') == AlignedLabels(md)
  {
    assert cigar[0].len > 0;
    assert md[0].op in {"M", "D"};
    ShorterCigarFits(cigar, md);
    PositiveDrop(cigar);
    ReplaceHead(md, md[0].len - cigar[0].len);
  }

  lemma ShorterCigarFits(cigar: seq<Run>, md: seq<Run>)
    requires cigar != [] && md != [] && !Passthrough(cigar[0].op)
    requires 0 < cigar[0].len < md[0].len && !Passthrough(md[0].op) && md[0].op != "X"
    requires Fits(AlignedLabels(cigar), AlignedLabels(md))
    ensures var md' := [Run(md[0].op, md[0].len - cigar[0].len)] + md[1..];
      Fits(AlignedLabels(cigar[1..]), AlignedLabels(md')) &&
      Rep(cigar[0].op, cigar[0].len) + AlignedLabels(md') == AlignedLabels(md)
  {
    ShorterCigarLabels(cigar, md);
    var md' := [Run(md[0].op, md[0].len - cigar[0].len)] + md[1..];
    FitsShorterLabels(AlignedLabels(cigar), AlignedLabels(md), AlignedLabels(md'),
                      cigar[0].op, md[0].op, cigar[0].len, md[0].len, AlignedLabels(cigar[1..]), AlignedLabels(md[1..]));
  }

  /** The labels of both lists split at their head runs, and those of the MD list once its head run is shortened. */
  lemma ShorterCigarLabels(cigar: seq<Run>, md: seq<Run>)
    requires cigar != [] && md != [] && !Passthrough(cigar[0].op) && !Passthrough(md[0].op)
    requires cigar[0].len < md[0].len
    ensures AlignedLabels(cigar) == Rep(cigar[0].op, cigar[0].len) + AlignedLabels(cigar[1..])
    ensures AlignedLabels(md) == Rep(md[0].op, md[0].len) + AlignedLabels(md[1..])
    ensures var md' := [Run(md[0].op, md[0].len - cigar[0].len)] + md[1..];
      AlignedLabels(md') == Rep(md[0].op, md[0].len - cigar[0].len) + AlignedLabels(md[1..])
  {
    LabelsHead(cigar);
    LabelsHead(md);
    LabelsOfPrepend(Run(md[0].op, md[0].len - cigar[0].len), md[1..]);
  }

  lemma ShorterMdPre(cigar: seq<Run>, md: seq<Run>)
    requires FollowsMdPre(cigar, md) && cigar != [] && md != [] && !Passthrough(cigar[0].op)
    requires cigar[0].len > md[0].len
    ensures var cigar' := [Run(cigar[0].op, cigar[0].len - md[0].len)] + cigar[1..];
      FollowsMdPre(cigar', md[1..]) &&
      Rep(md[0].op, md[0].len) + AlignedLabels(md[1..]) == AlignedLabels(md)
  {
    assert md[0].op in {"M", "X", "D"};
    ShorterMdFits(cigar, md);
    PositiveReplace(cigar, cigar[0].len - md[0].len);
    DropHead(md);
  }

  lemma ShorterMdFits(cigar: seq<Run>, md: seq<Run>)
    requires cigar != [] && md != [] && !Passthrough(cigar[0].op) && !Passthrough(md[0].op)
    requires cigar[0].len > md[0].len
    requires Fits(AlignedLabels(cigar), AlignedLabels(md))
    ensures var cigar' := [Run(cigar[0].op, cigar[0].len - md[0].len)] + cigar[1..];
      Fits(AlignedLabels(cigar'), AlignedLabels(md[1..])) &&
      Rep(md[0].op, md[0].len) + AlignedLabels(md[1..]) == AlignedLabels(md)
  {
    var c, m := cigar[0], md[0];
    LabelsHead(cigar);
    LabelsHead(md);
    var cigar' := [Run(c.op, c.len - m.len)] + cigar[1..];
    LabelsOfPrepend(Run(c.op, c.len - m.len), cigar[1..]);
    FitsLongerLabels(AlignedLabels(cigar), AlignedLabels(md), AlignedLabels(cigar'),
                     c.op, m.op, c.len, m.len, AlignedLabels(cigar[1..]), AlignedLabels(md[1..]));
  }

  lemma EqualPre(cigar: seq<Run>, md: seq<Run>)
    requires FollowsMdPre(cigar, md) && cigar != [] && md != [] && !Passthrough(cigar[0].op)
    requires cigar[0].len == md[0].len
    ensures FollowsMdPre(cigar[1..], md[1..])
    ensures Rep(md[0].op, md[0].len) + AlignedLabels(md[1..]) == AlignedLabels(md)
  {
    assert md[0].op in {"M", "X", "D"};
    EqualFits(cigar, md);
    PositiveDrop(cigar);
    DropHead(md);
  }

  lemma EqualFits(cigar: seq<Run>, md: seq<Run>)
    requires cigar != [] && md != [] && !Passthrough(cigar[0].op) && !Passthrough(md[0].op)
    requires cigar[0].len == md[0].len
    requires Fits(AlignedLabels(cigar), AlignedLabels(md))
    ensures Fits(AlignedLabels(cigar[1..]), AlignedLabels(md[1..]))
    ensures Rep(md[0].op, md[0].len) + AlignedLabels(md[1..]) == AlignedLabels(md)
  {
    LabelsHead(cigar);
    LabelsHead(md);
    FitsEqualLabels(AlignedLabels(cigar), AlignedLabels(md),
                    cigar[0].op, md[0].op, cigar[0].len, AlignedLabels(cigar[1..]), AlignedLabels(md[1..]));
  }

  lemma PositiveDrop(cigar: seq<Run>)
    requires cigar != [] && forall k :: 0 <= k < |cigar| ==> cigar[k].len > 0
    ensures forall k :: 0 <= k < |cigar[1..]| ==> cigar[1..][k].len > 0
  {
    assert forall k :: 0 <= k < |cigar| - 1 ==> cigar[1..][k] == cigar[k + 1];
  }

  lemma PositiveReplace(cigar: seq<Run>, n: nat)
    requires cigar != [] && n > 0 && forall k :: 0 <= k < |cigar| ==> cigar[k].len > 0
    ensures var cigar' := [Run(cigar[0].op, n)] + cigar[1..];
      forall k :: 0 <= k < |cigar'| ==> cigar'[k].len > 0
  {
    var cigar' := [Run(cigar[0].op, n)] + cigar[1..];
    assert forall k :: 1 <= k < |cigar'| ==> cigar'[k] == cigar[k];
  }

  lemma DropHead(md: seq<Run>)
    requires md != [] && MdRunsShape(md) && md[|md| - 1].len > 0
    ensures MdRunsShape(md[1..]) && (md[1..] == [] || md[1..][|md[1..]| - 1].len > 0)
  {
    LastOfTail(md);
    assert forall k :: 0 <= k < |md| - 1 ==> md[1..][k] == md[k + 1];
  }

  lemma ReplaceHead(md: seq<Run>, n: nat)
    requires md != [] && MdRunsShape(md) && md[|md| - 1].len > 0 && 0 < n <= md[0].len
    ensures var md' := [Run(md[0].op, n)] + md[1..];
      MdRunsShape(md') && md'[|md'| - 1].len > 0
  {
    var md' := [Run(md[0].op, n)] + md[1..];
    assert forall k :: 1 <= k < |md'| ==> md'[k] == md[k];
    if |md| > 1 { assert md'[|md'| - 1] == md[|md| - 1]; }
  }

  lemma {:induction false} FollowsShorterCigar(cigar: seq<Run>, md: seq<Run>)
    requires FollowsMdPre(cigar, md) && cigar != [] && md != [] && !Passthrough(cigar[0].op)
    requires cigar[0].len < md[0].len
    ensures Sweep(cigar, md).Ok?
    ensures AlignedLabels(Sweep(cigar, md).value) == AlignedLabels(md)
    decreases |cigar| + |md|, 0
  {
    var md' := [Run(md[0].op, md[0].len - cigar[0].len)] + md[1..];
    ShorterCigarPre(cigar, md);
    SweepFollowsMd(cigar[1..], md');
    SweepShorterCigar(cigar, md);
    PrependFollows(cigar[0], Sweep(cigar[1..], md'), AlignedLabels(md'), AlignedLabels(md));
  }

  lemma {:induction false} FollowsShorterMd(cigar: seq<Run>, md: seq<Run>)
    requires FollowsMdPre(cigar, md) && cigar != [] && md != [] && !Passthrough(cigar[0].op)
    requires cigar[0].len > md[0].len
    ensures Sweep(cigar, md).Ok?
    ensures AlignedLabels(Sweep(cigar, md).value) == AlignedLabels(md)
    decreases |cigar| + |md|, 0
  {
    var cigar' := [Run(cigar[0].op, cigar[0].len - md[0].len)] + cigar[1..];
    ShorterMdPre(cigar, md);
    SweepFollowsMd(cigar', md[1..]);
    SweepShorterMd(cigar, md);
    PrependFollows(md[0], Sweep(cigar', md[1..]), AlignedLabels(md[1..]), AlignedLabels(md));
  }

  lemma {:induction false} FollowsEqual(cigar: seq<Run>, md: seq<Run>)
    requires FollowsMdPre(cigar, md) && cigar != [] && md != [] && !Passthrough(cigar[0].op)
    requires cigar[0].len == md[0].len
    ensures Sweep(cigar, md).Ok?
    ensures AlignedLabels(Sweep(cigar, md).value) == AlignedLabels(md)
    decreases |cigar| + |md|, 0
  {
    EqualPre(cigar, md);
    SweepFollowsMd(cigar[1..], md[1..]);
    SweepEqualRuns(cigar, md);
    PrependFollows(md[0], Sweep(cigar[1..], md[1..]), AlignedLabels(md[1..]), AlignedLabels(md));
  }

  /** A run emitted in front of a merged stream adds its own labels in front of the stream's. */
  lemma PrependFollows(r: Run, res: Result<seq<Run>>, labels: seq<string>, whole: seq<string>)
    requires !Passthrough(r.op) && res.Ok? && AlignedLabels(res.value) == labels
    requires Rep(r.op, r.len) + labels == whole
    ensures Prepend(r, res).Ok? && AlignedLabels(Prepend(r, res).value) == whole
  {
    LabelsOfPrepend(r, res.value);
  }

  lemma SweepShorterCigar(cigar: seq<Run>, md: seq<Run>)
    requires cigar != [] && md != [] && !Passthrough(cigar[0].op) && cigar[0].len < md[0].len
    ensures Sweep(cigar, md) == Prepend(cigar[0], Sweep(cigar[1..], [Run(md[0].op, md[0].len - cigar[0].len)] + md[1..]))
  {
  }

  lemma SweepShorterMd(cigar: seq<Run>, md: seq<Run>)
    requires cigar != [] && md != [] && !Passthrough(cigar[0].op) && cigar[0].len > md[0].len
    ensures Sweep(cigar, md) == Prepend(md[0], Sweep([Run(cigar[0].op, cigar[0].len - md[0].len)] + cigar[1..], md[1..]))
  {
  }

  lemma SweepEqualRuns(cigar: seq<Run>, md: seq<Run>)
    requires cigar != [] && md != [] && !Passthrough(cigar[0].op) && cigar[0].len == md[0].len
    ensures Sweep(cigar, md) == Prepend(md[0], Sweep(cigar[1..], md[1..]))
  {
  }

  // ---------------------------------------------------------------------
  // Counting operations through labels.
  // ---------------------------------------------------------------------

  function Occurrences(labels: seq<string>, op: string): nat
  {
    if labels == [] then 0 else (if labels[0] == op then 1 else 0) + Occurrences(labels[1..], op)
  }

  lemma {:induction false} OccurrencesAppend(a: seq<string>, b: seq<string>, op: string)
    ensures Occurrences(a + b, op) == Occurrences(a, op) + Occurrences(b, op)
  {
    if a != [] {
      assert (a + b)[1..] == a[1..] + b;
      OccurrencesAppend(a[1..], b, op);
    } else {
      assert a + b == b;
    }
  }

  lemma {:induction false} OccurrencesRep(kind: string, n: nat, op: string)
    ensures Occurrences(Rep(kind, n), op) == if kind == op then n else 0
  {
    if n > 0 {
      assert Rep(kind, n)[1..] == Rep(kind, n - 1);
      OccurrencesRep(kind, n - 1, op);
    }
  }

  /** For an MD-expressible operation, its total equals the number of bases labelled with it. */
  lemma {:induction false} OpTotalByLabels(runs: seq<Run>, op: string)
    requires !Passthrough(op)
    ensures OpTotal(runs, op) == Occurrences(AlignedLabels(runs), op)
  {
    if runs != [] {
      var head := if Passthrough(runs[0].op) then [] else Rep(runs[0].op, runs[0].len);
      OccurrencesAppend(head, AlignedLabels(runs[1..]), op);
      OccurrencesRep(runs[0].op, runs[0].len, op);
      OpTotalByLabels(runs[1..], op);
    }
  }

  /** For a passthrough operation, its total is read off the passthrough runs alone. */
  lemma {:induction false} OpTotalOfPassthrough(runs: seq<Run>, op: string)
    requires Passthrough(op)
    ensures OpTotal(runs, op) == OpTotal(PassthroughRuns(runs), op)
  {
    if runs != [] {
      var head := if Passthrough(runs[0].op) then [runs[0]] else [];
      assert (head + PassthroughRuns(runs[1..]))[|head|..] == PassthroughRuns(runs[1..]);
      OpTotalOfPassthrough(runs[1..], op);
      OpTotalAppend(head, PassthroughRuns(runs[1..]), op);
    }
  }

  lemma {:induction false} OpTotalAppend(a: seq<Run>, b: seq<Run>, op: string)
    ensures OpTotal(a + b, op) == OpTotal(a, op) + OpTotal(b, op)
  {
    if a != [] {
      assert (a + b)[1..] == a[1..] + b;
      OpTotalAppend(a[1..], b, op);
    } else {
      assert a + b == b;
    }
  }

  lemma {:induction false} AlignedTotalAppend(a: seq<Run>, b: seq<Run>)
    ensures AlignedTotal(a + b) == AlignedTotal(a) + AlignedTotal(b)
  {
    if a != [] {
      assert (a + b)[1..] == a[1..] + b;
      AlignedTotalAppend(a[1..], b);
    } else {
      assert a + b == b;
    }
  }

  lemma {:induction false} AlignedLabelsAppend(a: seq<Run>, b: seq<Run>)
    ensures AlignedLabels(a + b) == AlignedLabels(a) + AlignedLabels(b)
  {
    if a != [] {
      assert (a + b)[1..] == a[1..] + b;
      AlignedLabelsAppend(a[1..], b);
    } else {
      assert a + b == b;
    }
  }

  lemma FitsAppend(a: seq<string>, b: seq<string>, c: seq<string>, d: seq<string>)
    requires Fits(a, b) && Fits(c, d)
    ensures Fits(a + c, b + d)
  {
  }

  /** The CIGAR operations over which both reconciliation paths are meant to agree. */
  predicate StandardOps(runs: seq<Run>)
  {
    forall k :: 0 <= k < |runs| ==> runs[k].op in {"M", "I", "D", "N", "S", "H"}
  }

  lemma {:induction false} AlignedTotalOfStandard(runs: seq<Run>)
    requires StandardOps(runs)
    ensures AlignedTotal(runs) == OpTotal(runs, "M") + OpTotal(runs, "D")
  {
    if runs != [] {
      assert StandardOps(runs[1..]) by {
        assert forall k :: 0 <= k < |runs| - 1 ==> runs[1..][k] == runs[k + 1];
      }
      AlignedTotalOfStandard(runs[1..]);
    }
  }

  // ---------------------------------------------------------------------
  // The sweep over index cursors into count lists updated in place.
  // ---------------------------------------------------------------------

  lemma ZipFromHead(ops: seq<string>, counts: seq<nat>, i: nat)
    requires i < |ops| <= |counts|
    ensures ZipFrom(ops, counts, i) == [Run(ops[i], counts[i])] + ZipFrom(ops, counts, i + 1)
  {
  }

  lemma ZipFromUpdate(ops: seq<string>, counts: seq<nat>, i: nat, v: nat)
    requires i < |ops| <= |counts|
    ensures ZipFrom(ops, counts[i := v], i) == [Run(ops[i], v)] + ZipFrom(ops, counts, i + 1)
  {
  }

  lemma ZipFromAppend(ops: seq<string>, counts: seq<nat>, op: string, n: nat)
    requires |ops| == |counts|
    ensures ZipFrom(ops + [op], counts + [n], 0) == ZipFrom(ops, counts, 0) + [Run(op, n)]
  {
  }

  /** The cursor state of the merge loop: lists with cursors, the first `ci`/`mi` entries consumed. */
  predicate Cursors(cOps: seq<string>, cCnt: seq<nat>, ci: nat, mOps: seq<string>, mCnt: seq<nat>, mi: nat)
  {
    ci <= |cOps| <= |cCnt| && mi <= |mOps| == |mCnt|
  }

  /** A clip, skip or insertion at the CIGAR cursor is copied and only the CIGAR cursor moves. */
  lemma SweepStepPassthrough(cOps: seq<string>, cCnt: seq<nat>, ci: nat, mOps: seq<string>, mCnt: seq<nat>, mi: nat)
    requires Cursors(cOps, cCnt, ci, mOps, mCnt, mi) && ci < |cOps| && Passthrough(cOps[ci])
    ensures Sweep(ZipFrom(cOps, cCnt, ci), ZipFrom(mOps, mCnt, mi))
         == Prepend(Run(cOps[ci], cCnt[ci]), Sweep(ZipFrom(cOps, cCnt, ci + 1), ZipFrom(mOps, mCnt, mi)))
  {
    ZipFromHead(cOps, cCnt, ci);
  }

  /** The CIGAR run is shorter: it is emitted and the MD count keeps the remainder. */
  lemma SweepStepShorter(cOps: seq<string>, cCnt: seq<nat>, ci: nat, mOps: seq<string>, mCnt: seq<nat>, mi: nat)
    requires Cursors(cOps, cCnt, ci, mOps, mCnt, mi) && ci < |cOps| && mi < |mOps| && !Passthrough(cOps[ci])
    requires cCnt[ci] < mCnt[mi]
    ensures Sweep(ZipFrom(cOps, cCnt, ci), ZipFrom(mOps, mCnt, mi))
         == Prepend(Run(cOps[ci], cCnt[ci]),
                    Sweep(ZipFrom(cOps, cCnt, ci + 1), ZipFrom(mOps, mCnt[mi := mCnt[mi] - cCnt[ci]], mi)))
  {
    ZipFromHead(cOps, cCnt, ci);
    ZipFromHead(mOps, mCnt, mi);
    ZipFromUpdate(mOps, mCnt, mi, mCnt[mi] - cCnt[ci]);
  }

  /** The MD run is shorter: it is emitted and the CIGAR count keeps the remainder. */
  lemma SweepStepLonger(cOps: seq<string>, cCnt: seq<nat>, ci: nat, mOps: seq<string>, mCnt: seq<nat>, mi: nat)
    requires Cursors(cOps, cCnt, ci, mOps, mCnt, mi) && ci < |cOps| && mi < |mOps| && !Passthrough(cOps[ci])
    requires cCnt[ci] > mCnt[mi]
    ensures Sweep(ZipFrom(cOps, cCnt, ci), ZipFrom(mOps, mCnt, mi))
         == Prepend(Run(mOps[mi], mCnt[mi]),
                    Sweep(ZipFrom(cOps, cCnt[ci := cCnt[ci] - mCnt[mi]], ci), ZipFrom(mOps, mCnt, mi + 1)))
  {
    ZipFromHead(cOps, cCnt, ci);
    ZipFromHead(mOps, mCnt, mi);
    ZipFromUpdate(cOps, cCnt, ci, cCnt[ci] - mCnt[mi]);
  }

  /** Equal counts: the MD run is emitted and both cursors move. */
  lemma SweepStepEqual(cOps: seq<string>, cCnt: seq<nat>, ci: nat, mOps: seq<string>, mCnt: seq<nat>, mi: nat)
    requires Cursors(cOps, cCnt, ci, mOps, mCnt, mi) && ci < |cOps| && mi < |mOps| && !Passthrough(cOps[ci])
    requires cCnt[ci] == mCnt[mi]
    ensures Sweep(ZipFrom(cOps, cCnt, ci), ZipFrom(mOps, mCnt, mi))
         == Prepend(Run(mOps[mi], mCnt[mi]), Sweep(ZipFrom(cOps, cCnt, ci + 1), ZipFrom(mOps, mCnt, mi + 1)))
  {
    ZipFromHead(cOps, cCnt, ci);
    ZipFromHead(mOps, mCnt, mi);
  }

  /** Indexing past either list is the IndexError the sweep reports. */
  lemma SweepStepFails(cOps: seq<string>, cCnt: seq<nat>, ci: nat, mOps: seq<string>, mCnt: seq<nat>, mi: nat)
    requires Cursors(cOps, cCnt, ci, mOps, mCnt, mi)
    requires (ci == |cOps| && mi < |mOps|) || (ci < |cOps| && mi == |mOps| && !Passthrough(cOps[ci]))
    ensures Sweep(ZipFrom(cOps, cCnt, ci), ZipFrom(mOps, mCnt, mi)) == Err(IndexOutOfRange)
  {
  }

  /**
   * The loop of `mergeMDwithCIGAR`: two cursors over the CIGAR and MD
   * operation lists, the count under each cursor shrinking as the other
   * list's run is emitted against it.
   */
  method SweepRuns(cigarOperation: seq<string>, cigarCount0: seq<nat>, mdOperation: seq<string>, mdCount0: seq<nat>)
    returns (r: Result<(seq<string>, seq<nat>)>)
    requires |mdOperation| == |mdCount0|
    ensures |cigarOperation| > |cigarCount0| ==> r == Err(IndexOutOfRange)
    ensures |cigarOperation| <= |cigarCount0| ==>
              var spec := Sweep(ZipFrom(cigarOperation, cigarCount0, 0), ZipFrom(mdOperation, mdCount0, 0));
              (spec.Err? ==> r == Err(spec.error)) &&
              (spec.Ok? ==> r.Ok? && |r.value.0| == |r.value.1| && ZipFrom(r.value.0, r.value.1, 0) == spec.value)
  {
    var cigarCount, mdCount := cigarCount0, mdCount0;
    var mergeOperations: seq<string> := [];
    var mergeCounts: seq<nat> := [];
    var mdIndex, cigarIndex := 0, 0;
    ghost var wide := |cigarOperation| <= |cigarCount|;
    ghost var spec := if wide then Sweep(ZipFrom(cigarOperation, cigarCount, 0), ZipFrom(mdOperation, mdCount, 0)) else Err(IndexOutOfRange);
    if wide {
      MergeStart(spec, cigarOperation, cigarCount, mdOperation, mdCount);
    }
    while mdIndex < |mdOperation| || cigarIndex < |cigarOperation|
      invariant cigarIndex <= |cigarOperation| && |cigarCount| == |cigarCount0|
      invariant mdIndex <= |mdOperation| == |mdCount| && |mergeOperations| == |mergeCounts|
      invariant !wide ==> cigarIndex <= |cigarCount|
      invariant wide ==>
                  MergeState(spec, mergeOperations, mergeCounts, cigarOperation, cigarCount, cigarIndex, mdOperation, mdCount, mdIndex)
      decreases |cigarOperation| - cigarIndex + |mdOperation| - mdIndex
    {
      if cigarIndex >= |cigarOperation| {
        SweepStepFails(cigarOperation, cigarCount, cigarIndex, mdOperation, mdCount, mdIndex);
        return Err(IndexOutOfRange);
      }
      var op := cigarOperation[cigarIndex];
      if op == "H" || op == "S" || op == "I" || op == "N" {
        if cigarIndex >= |cigarCount| {
          return Err(IndexOutOfRange);
        }
        if wide {
          MergePassthroughKeeps(spec, mergeOperations, mergeCounts, cigarOperation, cigarCount, cigarIndex, mdOperation, mdCount, mdIndex);
        }
        mergeOperations := mergeOperations + [op];
        mergeCounts := mergeCounts + [cigarCount[cigarIndex]];
        cigarIndex := cigarIndex + 1;
      } else {
        if cigarIndex >= |cigarCount| || mdIndex >= |mdCount| {
          if wide {
            SweepStepFails(cigarOperation, cigarCount, cigarIndex, mdOperation, mdCount, mdIndex);
          }
          return Err(IndexOutOfRange);
        }
        if cigarCount[cigarIndex] < mdCount[mdIndex] {
          if wide {
            MergeShorterKeeps(spec, mergeOperations, mergeCounts, cigarOperation, cigarCount, cigarIndex, mdOperation, mdCount, mdIndex);
          }
          mdCount := mdCount[mdIndex := mdCount[mdIndex] - cigarCount[cigarIndex]];
          mergeOperations := mergeOperations + [op];
          mergeCounts := mergeCounts + [cigarCount[cigarIndex]];
          cigarIndex := cigarIndex + 1;
        } else if cigarCount[cigarIndex] > mdCount[mdIndex] {
          if wide {
            MergeLongerKeeps(spec, mergeOperations, mergeCounts, cigarOperation, cigarCount, cigarIndex, mdOperation, mdCount, mdIndex);
          }
          cigarCount := cigarCount[cigarIndex := cigarCount[cigarIndex] - mdCount[mdIndex]];
          mergeOperations := mergeOperations + [mdOperation[mdIndex]];
          mergeCounts := mergeCounts + [mdCount[mdIndex]];
          mdIndex := mdIndex + 1;
        } else {
          if wide {
            MergeEqualKeeps(spec, mergeOperations, mergeCounts, cigarOperation, cigarCount, cigarIndex, mdOperation, mdCount, mdIndex);
          }
          mergeOperations := mergeOperations + [mdOperation[mdIndex]];
          mergeCounts := mergeCounts + [mdCount[mdIndex]];
          mdIndex := mdIndex + 1;
          cigarIndex := cigarIndex + 1;
        }
      }
    }
    if wide {
      MergeDone(spec, mergeOperations, mergeCounts, cigarOperation, cigarCount, cigarIndex, mdOperation, mdCount, mdIndex);
    }
    return Ok((mergeOperations, mergeCounts));
  }

  /**
   * The loop state of `SweepRuns`: the runs emitted so far, followed
   * by the sweep of what is left under both cursors, make up `spec`.
   */
  ghost predicate MergeState(spec: Result<seq<Run>>, outOps: seq<string>, outCounts: seq<nat>,
                             cOps: seq<string>, cCnt: seq<nat>, ci: nat, mOps: seq<string>, mCnt: seq<nat>, mi: nat)
  {
    |outOps| == |outCounts| && Cursors(cOps, cCnt, ci, mOps, mCnt, mi) &&
    spec == PrependAll(ZipFrom(outOps, outCounts, 0), Sweep(ZipFrom(cOps, cCnt, ci), ZipFrom(mOps, mCnt, mi)))
  }

  lemma MergeStart(spec: Result<seq<Run>>, cOps: seq<string>, cCnt: seq<nat>, mOps: seq<string>, mCnt: seq<nat>)
    requires |cOps| <= |cCnt| && |mOps| == |mCnt|
    requires spec == Sweep(ZipFrom(cOps, cCnt, 0), ZipFrom(mOps, mCnt, 0))
    ensures MergeState(spec, [], [], cOps, cCnt, 0, mOps, mCnt, 0)
  {
    assert ZipFrom([], [], 0) == [];
    PrependNothing(spec);
  }

  lemma MergePassthroughKeeps(spec: Result<seq<Run>>, outOps: seq<string>, outCounts: seq<nat>,
                              cOps: seq<string>, cCnt: seq<nat>, ci: nat, mOps: seq<string>, mCnt: seq<nat>, mi: nat)
    requires MergeState(spec, outOps, outCounts, cOps, cCnt, ci, mOps, mCnt, mi)
    requires ci < |cOps| && Passthrough(cOps[ci])
    ensures MergeState(spec, outOps + [cOps[ci]], outCounts + [cCnt[ci]], cOps, cCnt, ci + 1, mOps, mCnt, mi)
  {
    SweepStepPassthrough(cOps, cCnt, ci, mOps, mCnt, mi);
    NextMerged(outOps, outCounts, cOps[ci], cCnt[ci], Sweep(ZipFrom(cOps, cCnt, ci + 1), ZipFrom(mOps, mCnt, mi)));
  }

  lemma MergeShorterKeeps(spec: Result<seq<Run>>, outOps: seq<string>, outCounts: seq<nat>,
                          cOps: seq<string>, cCnt: seq<nat>, ci: nat, mOps: seq<string>, mCnt: seq<nat>, mi: nat)
    requires MergeState(spec, outOps, outCounts, cOps, cCnt, ci, mOps, mCnt, mi)
    requires ci < |cOps| && mi < |mOps| && !Passthrough(cOps[ci]) && cCnt[ci] < mCnt[mi]
    ensures MergeState(spec, outOps + [cOps[ci]], outCounts + [cCnt[ci]],
                       cOps, cCnt, ci + 1, mOps, mCnt[mi := mCnt[mi] - cCnt[ci]], mi)
  {
    SweepStepShorter(cOps, cCnt, ci, mOps, mCnt, mi);
    NextMerged(outOps, outCounts, cOps[ci], cCnt[ci],
               Sweep(ZipFrom(cOps, cCnt, ci + 1), ZipFrom(mOps, mCnt[mi := mCnt[mi] - cCnt[ci]], mi)));
  }

  lemma MergeLongerKeeps(spec: Result<seq<Run>>, outOps: seq<string>, outCounts: seq<nat>,
                         cOps: seq<string>, cCnt: seq<nat>, ci: nat, mOps: seq<string>, mCnt: seq<nat>, mi: nat)
    requires MergeState(spec, outOps, outCounts, cOps, cCnt, ci, mOps, mCnt, mi)
    requires ci < |cOps| && mi < |mOps| && !Passthrough(cOps[ci]) && cCnt[ci] > mCnt[mi]
    ensures MergeState(spec, outOps + [mOps[mi]], outCounts + [mCnt[mi]],
                       cOps, cCnt[ci := cCnt[ci] - mCnt[mi]], ci, mOps, mCnt, mi + 1)
  {
    SweepStepLonger(cOps, cCnt, ci, mOps, mCnt, mi);
    NextMerged(outOps, outCounts, mOps[mi], mCnt[mi],
               Sweep(ZipFrom(cOps, cCnt[ci := cCnt[ci] - mCnt[mi]], ci), ZipFrom(mOps, mCnt, mi + 1)));
  }

  lemma MergeEqualKeeps(spec: Result<seq<Run>>, outOps: seq<string>, outCounts: seq<nat>,
                        cOps: seq<string>, cCnt: seq<nat>, ci: nat, mOps: seq<string>, mCnt: seq<nat>, mi: nat)
    requires MergeState(spec, outOps, outCounts, cOps, cCnt, ci, mOps, mCnt, mi)
    requires ci < |cOps| && mi < |mOps| && !Passthrough(cOps[ci]) && cCnt[ci] == mCnt[mi]
    ensures MergeState(spec, outOps + [mOps[mi]], outCounts + [mCnt[mi]], cOps, cCnt, ci + 1, mOps, mCnt, mi + 1)
  {
    SweepStepEqual(cOps, cCnt, ci, mOps, mCnt, mi);
    NextMerged(outOps, outCounts, mOps[mi], mCnt[mi], Sweep(ZipFrom(cOps, cCnt, ci + 1), ZipFrom(mOps, mCnt, mi + 1)));
  }

  /** With both cursors at the end, the runs emitted are the whole merge. */
  lemma MergeDone(spec: Result<seq<Run>>, outOps: seq<string>, outCounts: seq<nat>,
                  cOps: seq<string>, cCnt: seq<nat>, ci: nat, mOps: seq<string>, mCnt: seq<nat>, mi: nat)
    requires MergeState(spec, outOps, outCounts, cOps, cCnt, ci, mOps, mCnt, mi)
    requires ci == |cOps| && mi == |mOps|
    ensures spec == Ok(ZipFrom(outOps, outCounts, 0))
  {
    assert ZipFrom(cOps, cCnt, ci) == [] && ZipFrom(mOps, mCnt, mi) == [];
    assert ZipFrom(outOps, outCounts, 0) + [] == ZipFrom(outOps, outCounts, 0);
  }

  /** Emitting one merged run moves it from the sweep still to do onto the merged lists. */
  lemma NextMerged(ops: seq<string>, counts: seq<nat>, op: string, n: nat, rest: Result<seq<Run>>)
    requires |ops| == |counts|
    ensures PrependAll(ZipFrom(ops, counts, 0), Prepend(Run(op, n), rest)) == PrependAll(ZipFrom(ops + [op], counts + [n], 0), rest)
  {
    PrependAllStep(ZipFrom(ops, counts, 0), Run(op, n), rest);
    ZipFromAppend(ops, counts, op, n);
  }
}
