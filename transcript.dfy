/** The transcript record (`Transcript2`): one SAM alignment and what is derived from it. */
module Transcripts {
  import opened Results
  import opened Text
  import opened Cigar
  import opened MdTag
  import opened Merge
  import opened Recompute
  import opened SamFields
  import opened Junctions
  import opened Fasta

  class Transcript {
    var qname: string
    var flag: string
    var chrom: string
    var pos: int
    var mapq: string
    var cigar: string
    var rnext: string
    var pnext: string
    var tlen: string
    var sequence: string
    var qual: string
    var nm: string
    var md: string
    var jm: string
    var ji: string
    var otherFields: string
    var spliceJunctions: seq<Junction>
    var isCanonical: bool
    var strand: string

    /**
     * The first part of `__init__`: the mandatory columns are copied, each of
     * NM, MD, jM and jI keeps the last optional field of its kind (or ""),
     * and all other optional fields are joined by tabs in their order.
     */
    constructor (rec: SamRecord)
      ensures qname == rec.qname && flag == rec.flag && chrom == rec.chrom && pos == rec.pos
      ensures mapq == rec.mapq && cigar == rec.cigar && rnext == rec.rnext && pnext == rec.pnext
      ensures tlen == rec.tlen && sequence == rec.sequence && qual == rec.qual
      ensures nm == LastOfKind(rec.optional, NmField) && md == LastOfKind(rec.optional, MdField)
      ensures jm == LastOfKind(rec.optional, JmField) && ji == LastOfKind(rec.optional, JiField)
      ensures otherFields == Join(Others(rec.optional), "\t")
      ensures spliceJunctions == [] && isCanonical && strand == "+"
    {
      var fields := rec.optional;
      var nm', md', jm', ji' := "", "", "", "";
      var others: seq<string> := [];
      for i := 0 to |fields|
        invariant nm' == LastOfKind(fields[..i], NmField) && md' == LastOfKind(fields[..i], MdField)
        invariant jm' == LastOfKind(fields[..i], JmField) && ji' == LastOfKind(fields[..i], JiField)
        invariant others == Others(fields[..i])
      {
        var field := fields[i];
        assert fields[..i + 1][..i] == fields[..i];
        if StartsWith(field, "NM") {
          nm' := field;
        } else if StartsWith(field, "MD") {
          md' := field;
        } else if StartsWith(field, "jM") {
          jm' := field;
        } else if StartsWith(field, "jI") {
          ji' := field;
        } else {
          others := others + [field];
        }
      }
      assert fields[..|fields|] == fields;
      qname, flag, chrom, pos, mapq, cigar := rec.qname, rec.flag, rec.chrom, rec.pos, rec.mapq, rec.cigar;
      rnext, pnext, tlen, sequence, qual := rec.rnext, rec.pnext, rec.tlen, rec.sequence, rec.qual;
      nm, md, jm, ji := nm', md', jm', ji';
      otherFields := Join(others, "\t");
      spliceJunctions := [];
      isCanonical := true;
      // FLAG is kept as a string, which never equals the number 16.
      strand := "+";
    }

    /**
     * `__init__`: reads the SAM line, sorts out its optional fields,
     * recomputes NM and MD from the reference when no MD field is present,
     * and pairs up the junctions when a jM field lists any. When it fails,
     * the error is the first one the Python code would raise.
     */
    static method FromSam(sam: string, g: Genome, canonical: Verdict) returns (r: Result<Transcript>)
      ensures ParseSam(sam).Err? ==> r == Err(ParseSam(sam).error)
      ensures ParseSam(sam).Ok? ==> (r.Err? <==> InitFails(ParseSam(sam).value, g, canonical))
      ensures r.Ok? ==> fresh(r.value) && ParseSam(sam).Ok? && Describes(r.value, ParseSam(sam).value, g, canonical)
    {
      var rec := ParseSam(sam);
      if rec.Err? {
        return Err(rec.error);
      }
      r := FromColumns(rec.value, g, canonical);
    }

    /** `__init__` once the line has been split into its columns. */
    static method FromColumns(cols: SamRecord, g: Genome, canonical: Verdict) returns (r: Result<Transcript>)
      ensures r.Err? <==> InitFails(cols, g, canonical)
      ensures r.Ok? ==> fresh(r.value) && Describes(r.value, cols, g, canonical)
    {
      var t := new Transcript(cols);
      var filled := t.FlagStage(cols, g);
      if filled.Err? {
        return Err(filled.error);
      }
      filled := t.JunctionStage(cols, g, canonical);
      if filled.Err? {
        return Err(filled.error);
      }
      return Ok(t);
    }

    /** The NM and MD step of `__init__` on a record just built from `cols`. */
    method FlagStage(ghost cols: SamRecord, g: Genome) returns (r: Result<()>)
      requires HoldsColumns(this, cols) && spliceJunctions == [] && isCanonical
      requires nm == LastOfKind(cols.optional, NmField) && md == LastOfKind(cols.optional, MdField)
      modifies this`nm, this`md
      ensures HoldsColumns(this, cols) && spliceJunctions == [] && isCanonical
      ensures r.Err? <==> FlagsFail(cols, g)
      ensures r.Ok? ==> HoldsFlags(this, cols, g)
    {
      r := FillFlags(g);
    }

    /** The junction step of `__init__` on a record whose columns and flags are in place. */
    method JunctionStage(ghost cols: SamRecord, ghost g: Genome, canonical: Verdict) returns (r: Result<()>)
      requires HoldsColumns(this, cols) && HoldsFlags(this, cols, g)
      requires spliceJunctions == [] && isCanonical
      modifies this`spliceJunctions, this`isCanonical
      ensures r.Err? <==> JunctionsFail(cols, canonical)
      ensures r.Ok? ==> Describes(this, cols, g, canonical)
    {
      r := FillJunctions(canonical);
    }

    /** The NM and MD step of `__init__`: recomputed from the reference when no MD field was given. */
    method FillFlags(g: Genome) returns (r: Result<()>)
      modifies this`nm, this`md
      ensures old(md) != "" ==> r.Ok? && nm == old(nm) && md == old(md)
      ensures old(md) == "" ==> (r.Ok? <==> NmMdFlags(cigar, sequence, pos, chrom, g).Ok?)
      ensures old(md) == "" && r.Ok? ==> NmMdFlags(cigar, sequence, pos, chrom, g) == Ok((nm, md))
      ensures r.Err? ==> r.error == NmMdFlags(cigar, sequence, pos, chrom, g).error
    {
      if md == "" {
        var flags := GetNmAndMdFlags(g);
        if flags.Err? {
          return Err(flags.error);
        }
        nm, md := flags.value.0, flags.value.1;
      }
      return Ok(());
    }

    /** The junction step of `__init__`: junctions are built only when the jM field lists some. */
    method FillJunctions(canonical: Verdict) returns (r: Result<()>)
      modifies this`spliceJunctions, this`isCanonical
      ensures !ListsJunctions(jm) ==> r.Ok? && spliceJunctions == old(spliceJunctions) && isCanonical == old(isCanonical)
      ensures ListsJunctions(jm) ==> (r.Ok? <==> ParseJunctions(qname, chrom, strand, jm, ji, canonical).Ok?)
      ensures ListsJunctions(jm) && r.Ok? ==>
                ParseJunctions(qname, chrom, strand, jm, ji, canonical) == Ok(spliceJunctions) &&
                isCanonical == (old(isCanonical) && AllCanonical(spliceJunctions))
      ensures r.Err? ==> r.error == ParseJunctions(qname, chrom, strand, jm, ji, canonical).error
    {
      if jm != "" && !HasSubstring(jm, "-1") {
        var js := ParseSpliceJunctions(canonical);
        if js.Err? {
          return Err(js.error);
        }
        spliceJunctions := js.value;
      }
      return Ok(());
    }

    /**
     * `mergeMDwithCIGAR`: the CIGAR and MD runs merged by two cursors over
     * count lists that are decremented in place. An index past the end of
     * either list is the IndexError of the sweep. The record is not changed.
     */
    method MergeMdWithCigar() returns (r: Result<(seq<string>, seq<nat>)>)
      ensures MergeSpec(cigar, md).Err? ==> r == Err(MergeSpec(cigar, md).error)
      ensures MergeSpec(cigar, md).Ok? ==>
                r.Ok? && |r.value.0| == |r.value.1| && ZipFrom(r.value.0, r.value.1, 0) == MergeSpec(cigar, md).value
    {
      var split := SplitCigar(cigar);
      if split.Err? {
        return Err(split.error);
      }
      var cigarOperation, cigarCount := split.value.0, split.value.1;
      var mdSplit := SplitMd(md);
      if mdSplit.Err? {
        return Err(IndexOutOfRange);
      }
      var mdOperation, mdCount := mdSplit.value.0, mdSplit.value.1;
      r := SweepRuns(cigarOperation, cigarCount, mdOperation, mdCount);
    }

    /**
     * `getNMandMDFlags`: walks the CIGAR runs (zipped with their counts)
     * comparing read bases with reference bases, and returns NM as a decimal
     * string and the MD field it builds. The record is not changed.
     */
    method GetNmAndMdFlags(g: Genome) returns (r: Result<(string, string)>)
      ensures r == NmMdFlags(cigar, sequence, pos, chrom, g)
    {
      var split := SplitCigar(cigar);
      if split.Err? {
        return Err(split.error);
      }
      var operations, counts := split.value.0, split.value.1;
      var runs := Zip(operations, counts);
      var nm': nat := 0;
      var md' := "MD:Z:";
      var mVal: nat := 0;
      var seqPos: nat := 0;
      var genomePos := pos;
      ghost var toks: seq<MdToken> := [];
      ghost var whole := RecomputeState(cigar, sequence, pos, chrom, g);
      assert runs[0..] == runs;
      for k := 0 to |runs|
        invariant md' == "MD:Z:" + Render(toks)
        invariant whole == Walk(runs[k..], sequence, g, chrom, WalkState(nm', toks, mVal, seqPos, genomePos))
      {
        ghost var before := WalkState(nm', toks, mVal, seqPos, genomePos);
        WalkAt(runs, k, sequence, g, chrom, before);
        var res;
        res, toks := WalkRun(g, runs[k].op, runs[k].len, nm', toks, mVal, seqPos, genomePos, md');
        if res.Err? {
          return Err(res.error);
        }
        nm', mVal, seqPos, genomePos, md' := res.value.0, res.value.1, res.value.2, res.value.3, res.value.4;
      }
      ghost var last := WalkState(nm', toks, mVal, seqPos, genomePos);
      assert whole == Ok(last);
      if mVal > 0 {
        MdTextClose(md', toks, mVal);
        md' := md' + NatToString(mVal);
      } else {
        assert toks + [] == toks;
      }
      assert md' == "MD:Z:" + Render(FinalTokens(last));
      return Ok((NatToString(nm'), md'));
    }

    /**
     * The body of the outer loop of `getNMandMDFlags` for one CIGAR run
     * `op`/`ct`, from the walk state given by NM, the MD tokens so far (whose
     * text is `mdText`), MVal and the two cursors.
     */
    method WalkRun(g: Genome, op: string, ct: nat, nm0: nat, ghost toks0: seq<MdToken>, mVal0: nat, seqPos0: nat,
                   genomePos0: int, mdText: string)
      returns (r: Result<(nat, nat, nat, int, string)>, ghost toks: seq<MdToken>)
      requires mdText == "MD:Z:" + Render(toks0)
      ensures var st := WalkState(nm0, toks0, mVal0, seqPos0, genomePos0);
              r.Err? ==> Step(Run(op, ct), sequence, g, chrom, st) == Err(r.error)
      ensures var st := WalkState(nm0, toks0, mVal0, seqPos0, genomePos0);
              r.Ok? ==> Step(Run(op, ct), sequence, g, chrom, st) == Ok(WalkState(r.value.0, toks, r.value.1, r.value.2, r.value.3)) &&
                        r.value.4 == "MD:Z:" + Render(toks)
    {
      var nm': nat, mVal: nat, seqPos: nat, genomePos: int, md': string := nm0, mVal0, seqPos0, genomePos0, mdText;
      toks := toks0;
      if op == "M" {
        r, toks := CompareBases(g, ct, nm', toks, mVal, seqPos, genomePos, md');
        return;
      }
      if op == "D" {
        var refBases := BasesAt(g, chrom, genomePos, genomePos + ct - 1);
        if refBases.Err? {
          return Err(refBases.error), toks;
        }
        MdTextDeletion(md', toks, mVal, refBases.value);
        toks := toks + [Count(mVal), Deletion(refBases.value)];
        md' := md' + NatToString(mVal);
        mVal := 0;
        md' := md' + "^" + refBases.value;
        nm' := nm' + ct;
        genomePos := genomePos + ct;
      }
      if op == "I" || op == "S" {
        seqPos := seqPos + ct;
        if op == "I" {
          nm' := nm' + ct;
        }
      }
      if op == "N" || op == "H" {
        genomePos := genomePos + ct;
      }
      return Ok((nm', mVal, seqPos, genomePos, md')), toks;
    }

    /**
     * The inner loop of `getNMandMDFlags` over the `ct` bases of an M run,
     * from the walk state given by NM, the MD tokens so far (whose text is
     * `mdText`), MVal and the two cursors. The new NM, MVal, cursors and MD
     * text come back together.
     */
    method CompareBases(g: Genome, ct: nat, nm0: nat, ghost toks0: seq<MdToken>, mVal0: nat, seqPos0: nat,
                        genomePos0: int, mdText: string)
      returns (r: Result<(nat, nat, nat, int, string)>, ghost toks: seq<MdToken>)
      requires mdText == "MD:Z:" + Render(toks0)
      ensures var st := WalkState(nm0, toks0, mVal0, seqPos0, genomePos0);
              r.Err? ==> MatchBases(sequence, g, chrom, ct, st) == Err(r.error)
      ensures var st := WalkState(nm0, toks0, mVal0, seqPos0, genomePos0);
              r.Ok? ==> MatchBases(sequence, g, chrom, ct, st) == Ok(WalkState(r.value.0, toks, r.value.1, r.value.2, r.value.3)) &&
                        r.value.4 == "MD:Z:" + Render(toks)
    {
      var nm': nat, mVal: nat, seqPos: nat, genomePos: int, md': string := nm0, mVal0, seqPos0, genomePos0, mdText;
      toks := toks0;
      for i := 0 to ct
        invariant md' == "MD:Z:" + Render(toks)
        invariant MatchBases(sequence, g, chrom, ct, WalkState(nm0, toks0, mVal0, seqPos0, genomePos0))
               == MatchBases(sequence, g, chrom, ct - i, WalkState(nm', toks, mVal, seqPos, genomePos))
      {
        if seqPos >= |sequence| {
          return Err(IndexOutOfRange), toks;
        }
        var currBase := sequence[seqPos];
        var refBase := BaseAt(g, chrom, genomePos);
        if refBase.Err? {
          return Err(refBase.error), toks;
        }
        if Upper(currBase) != Upper(refBase.value) {
          MdTextMismatch(md', toks, mVal, refBase.value);
          toks := toks + [Count(mVal), Mismatch(refBase.value)];
          md' := md' + NatToString(mVal);
          mVal := 0;
          md' := md' + [refBase.value];
          nm' := nm' + 1;
        } else {
          mVal := mVal + 1;
        }
        seqPos := seqPos + 1;
        genomePos := genomePos + 1;
      }
      return Ok((nm', mVal, seqPos, genomePos, md')), toks;
    }

    /**
     * `parseSpliceJunctions`: pairs every motif of the jM field with two
     * intron bounds of the jI field and records a non-canonical junction by
     * clearing `isCanonical`, which is never set here.
     */
    method ParseSpliceJunctions(canonical: Verdict) returns (r: Result<seq<Junction>>)
      modifies this`isCanonical
      ensures r == ParseJunctions(qname, chrom, strand, jm, ji, canonical)
      ensures r.Ok? ==> isCanonical == (old(isCanonical) && AllCanonical(r.value))
      ensures isCanonical ==> old(isCanonical)
    {
      var name, contig, dir := qname, chrom, strand;
      var spliceJns := ArrayValues(jm);
      var intronBounds := ArrayValues(ji);
      var count := 0;
      var jnNum := 0;
      var jnObjects: seq<Junction> := [];
      ghost var whole := PairFrom(name, contig, dir, spliceJns, intronBounds, canonical, 0);
      PrependNothing(whole);
      while jnNum < |spliceJns|
        invariant jnNum <= |spliceJns| && count == 2 * jnNum
        invariant whole == PrependAll(jnObjects, PairFrom(name, contig, dir, spliceJns, intronBounds, canonical, jnNum))
        invariant isCanonical == (old(isCanonical) && AllCanonical(jnObjects))
        decreases |spliceJns| - jnNum
      {
        var entry := spliceJns[jnNum];
        PairFromAt(name, contig, dir, spliceJns, intronBounds, canonical, jnNum);
        if count >= |intronBounds| {
          return Err(IndexOutOfRange);
        }
        var start := ParseInt(intronBounds[count]);
        if start.None? {
          return Err(NotAnInteger);
        }
        if count + 1 >= |intronBounds| {
          return Err(IndexOutOfRange);
        }
        var end := ParseInt(intronBounds[count + 1]);
        if end.None? {
          return Err(NotAnInteger);
        }
        var sj := Junction(name, jnNum, contig, start.value, end.value, dir, entry,
                           canonical(contig, start.value, end.value, dir, entry));
        PrependAllStep(jnObjects, sj, PairFrom(name, contig, dir, spliceJns, intronBounds, canonical, jnNum + 1));
        AllCanonicalAppend(jnObjects, sj);
        jnObjects := jnObjects + [sj];
        if !sj.isCanonical {
          isCanonical := false;
        }
        count := count + 2;
        jnNum := jnNum + 1;
      }
      assert jnObjects + [] == jnObjects;
      return Ok(jnObjects);
    }

    /** `recheckCanonical`: the record is canonical exactly when all its junctions are. */
    method RecheckCanonical() returns (r: bool)
      modifies this`isCanonical
      ensures r == AllCanonical(spliceJunctions) && isCanonical == r
    {
      for i := 0 to |spliceJunctions|
        invariant forall j :: 0 <= j < i ==> spliceJunctions[j].isCanonical
      {
        if !spliceJunctions[i].isCanonical {
          isCanonical := false;
          return false;
        }
      }
      isCanonical := true;
      return true;
    }

    /** `getAllIntronBounds`: the two bounds of every junction, in junction order. */
    method GetAllIntronBounds() returns (r: seq<int>)
      ensures |r| == 2 * |spliceJunctions|
      ensures forall k :: 0 <= k < |spliceJunctions| ==>
                r[2 * k] == spliceJunctions[k].start && r[2 * k + 1] == spliceJunctions[k].end
      ensures r == Flatten(spliceJunctions)
    {
      r := [];
      for i := 0 to |spliceJunctions|
        invariant |r| == 2 * i
        invariant forall k :: 0 <= k < i ==> r[2 * k] == spliceJunctions[k].start && r[2 * k + 1] == spliceJunctions[k].end
      {
        var jn := spliceJunctions[i];
        r := r + [jn.start];
        r := r + [jn.end];
      }
      assert forall j :: 0 <= j < |r| ==> r[j] == Flatten(spliceJunctions)[j] by {
        forall j | 0 <= j < |r|
          ensures r[j] == Flatten(spliceJunctions)[j]
        {
          var k := j / 2;
          assert 0 <= k < |spliceJunctions|;
          if j == 2 * k {
            assert Flatten(spliceJunctions)[2 * k] == spliceJunctions[k].start;
          } else {
            assert j == 2 * k + 1;
            assert Flatten(spliceJunctions)[2 * k + 1] == spliceJunctions[k].end;
          }
        }
      }
    }

    /** `printableFa`: the FASTA text of the read; see `FastaLines` for its line structure. */
    function PrintableFa(): string
      reads this
    {
      FastaText(qname, sequence)
    }
  }

  /** Whether a jM field lists junctions to build: present and without the `-1` of an unspliced read. */
  predicate ListsJunctions(jm: string)
  {
    jm != "" && !HasSubstring(jm, "-1")
  }

  /** Recomputing NM and MD fails: the record has no MD field and the walk fails. */
  predicate FlagsFail(rec: SamRecord, g: Genome)
  {
    LastOfKind(rec.optional, MdField) == "" && NmMdFlags(rec.cigar, rec.sequence, rec.pos, rec.chrom, g).Err?
  }

  /** Pairing up the junctions fails: the jM field lists junctions and the pairing fails. */
  predicate JunctionsFail(rec: SamRecord, canonical: Verdict)
  {
    ListsJunctions(LastOfKind(rec.optional, JmField)) &&
    ParseJunctions(rec.qname, rec.chrom, "+", LastOfKind(rec.optional, JmField), LastOfKind(rec.optional, JiField), canonical).Err?
  }

  /** Whether constructing the record from its columns fails. */
  predicate InitFails(rec: SamRecord, g: Genome, canonical: Verdict)
  {
    FlagsFail(rec, g) || JunctionsFail(rec, canonical)
  }

  /** The columns and the optional fields that a record keeps as they were read. */
  predicate HoldsColumns(t: Transcript, rec: SamRecord)
    reads t
  {
    t.qname == rec.qname && t.flag == rec.flag && t.chrom == rec.chrom && t.pos == rec.pos &&
    t.mapq == rec.mapq && t.cigar == rec.cigar && t.rnext == rec.rnext && t.pnext == rec.pnext &&
    t.tlen == rec.tlen && t.sequence == rec.sequence && t.qual == rec.qual &&
    t.jm == LastOfKind(rec.optional, JmField) && t.ji == LastOfKind(rec.optional, JiField) &&
    t.otherFields == Join(Others(rec.optional), "\t") && t.strand == "+"
  }

  /** NM and MD: kept from the fields when an MD field was present, recomputed otherwise. */
  predicate HoldsFlags(t: Transcript, rec: SamRecord, g: Genome)
    reads t
  {
    var mdField := LastOfKind(rec.optional, MdField);
    (mdField != "" ==> t.nm == LastOfKind(rec.optional, NmField) && t.md == mdField) &&
    (mdField == "" ==> NmMdFlags(rec.cigar, rec.sequence, rec.pos, rec.chrom, g) == Ok((t.nm, t.md)))
  }

  /** The junctions: none unless the jM field lists some, and canonical exactly when all are. */
  predicate HoldsJunctions(t: Transcript, rec: SamRecord, canonical: Verdict)
    reads t
  {
    var jm := LastOfKind(rec.optional, JmField);
    var ji := LastOfKind(rec.optional, JiField);
    (!ListsJunctions(jm) ==> t.spliceJunctions == []) &&
    (ListsJunctions(jm) ==> ParseJunctions(rec.qname, rec.chrom, "+", jm, ji, canonical) == Ok(t.spliceJunctions)) &&
    t.isCanonical == AllCanonical(t.spliceJunctions)
  }

  /** The state of a record constructed from the columns `rec`. */
  predicate Describes(t: Transcript, rec: SamRecord, g: Genome, canonical: Verdict)
    reads t
  {
    HoldsColumns(t, rec) && HoldsFlags(t, rec, g) && HoldsJunctions(t, rec, canonical)
  }
}
