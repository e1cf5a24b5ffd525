/** Reading one SAM line into its columns and sorting out the optional fields. */
module SamFields {
  import opened Results
  import opened Text

  function StripFront(s: string): string
    decreases |s|
  {
    if s != [] && IsSpace(s[0]) then StripFront(s[1..]) else s
  }

  function StripBack(s: string): string
    decreases |s|
  {
    if s != [] && IsSpace(s[|s| - 1]) then StripBack(s[..|s| - 1]) else s
  }

  /** Python's `str.strip()` over ASCII whitespace. */
  function Strip(s: string): string { StripBack(StripFront(s)) }

  /** A line that starts and ends with something other than whitespace is left as it is. */
  lemma StripKeeps(s: string)
    requires s == [] || (!IsSpace(s[0]) && !IsSpace(s[|s| - 1]))
    ensures Strip(s) == s
  {
  }

  /** Stripping leaves no whitespace at either end. */
  lemma {:induction false} StripEnds(s: string)
    ensures var t := Strip(s); t == [] || (!IsSpace(t[0]) && !IsSpace(t[|t| - 1]))
  {
    StripFrontEnds(s);
    StripBackEnds(StripFront(s));
  }

  lemma {:induction false} StripFrontEnds(s: string)
    ensures var t := StripFront(s); t == [] || !IsSpace(t[0])
    decreases |s|
  {
    if s != [] && IsSpace(s[0]) {
      StripFrontEnds(s[1..]);
    }
  }

  lemma {:induction false} StripBackEnds(s: string)
    requires s == [] || !IsSpace(s[0])
    ensures var t := StripBack(s); t == [] || (!IsSpace(t[0]) && !IsSpace(t[|t| - 1]))
    decreases |s|
  {
    if s != [] && IsSpace(s[|s| - 1]) {
      StripBackEnds(s[..|s| - 1]);
    }
  }

  /** The eleven mandatory columns of a SAM line, then the optional fields in order. */
  datatype SamRecord = SamRecord(
    qname: string, flag: string, chrom: string, pos: int, mapq: string, cigar: string,
    rnext: string, pnext: string, tlen: string, sequence: string, qual: string,
    optional: seq<string>)

  /**
   * The columns of a stripped, tab-separated line. The columns are read in
   * order, so a line of fewer than four columns fails on the position's
   * index, a position that is not an integer fails next, and only then a
   * line of fewer than eleven columns.
   */
  function ParseSam(sam: string): (r: Result<SamRecord>)
    ensures var f := SplitOn(Strip(sam), '\t');
            r.Ok? <==> |f| >= 11 && ParseInt(f[3]).Some?
    ensures var f := SplitOn(Strip(sam), '\t');
            r.Ok? ==> r.value.optional == f[11..] && Some(r.value.pos) == ParseInt(f[3]) &&
                      [r.value.qname, r.value.flag, r.value.chrom] == f[..3] &&
                      [r.value.mapq, r.value.cigar, r.value.rnext, r.value.pnext, r.value.tlen, r.value.sequence, r.value.qual] == f[4..11]
    ensures r.Err? ==> r.error == (if 4 <= |SplitOn(Strip(sam), '\t')| && ParseInt(SplitOn(Strip(sam), '\t')[3]).None?
                                   then NotAnInteger else IndexOutOfRange)
  {
    var f := SplitOn(Strip(sam), '\t');
    if |f| < 4 then Err(IndexOutOfRange)
    else
      match ParseInt(f[3])
      case None => Err(NotAnInteger)
      case Some(p) =>
        if |f| < 11 then Err(IndexOutOfRange)
        else Ok(SamRecord(f[0], f[1], f[2], p, f[4], f[5], f[6], f[7], f[8], f[9], f[10], f[11..]))
  }

  /**
   * Joining at least eleven tab-free columns with tabs, a decimal position in
   * the fourth, and nothing blank at either end of the line, gives back the
   * columns.
   */
  lemma ParseSamOfColumns(cols: seq<string>, pos: nat)
    requires |cols| >= 11 && forall k :: 0 <= k < |cols| ==> '\t' !in cols[k]
    requires cols[3] == NatToString(pos)
    requires cols[0] != [] && !IsSpace(cols[0][0])
    requires cols[|cols| - 1] != [] && !IsSpace(cols[|cols| - 1][|cols[|cols| - 1]| - 1])
    ensures ParseSam(Join(cols, "\t")) == Ok(SamRecord(cols[0], cols[1], cols[2], pos, cols[4], cols[5], cols[6],
                                                 cols[7], cols[8], cols[9], cols[10], cols[11..]))
  {
    var line := Join(cols, "\t");
    JoinFirst(cols, "\t");
    JoinLast(cols, "\t");
    StripKeeps(line);
    SplitOnJoin(cols, '\t');
    ParseNatToString(pos);
    assert ParseInt(cols[3]) == Some(pos);
  }

  lemma JoinFirst(parts: seq<string>, sep: string)
    requires |parts| >= 1 && parts[0] != []
    ensures var j := Join(parts, sep); j != [] && j[0] == parts[0][0]
  {
  }

  lemma {:induction false} JoinLast(parts: seq<string>, sep: string)
    requires |parts| >= 1 && parts[|parts| - 1] != []
    ensures var j := Join(parts, sep); j != [] && j[|j| - 1] == parts[|parts| - 1][|parts[|parts| - 1]| - 1]
    decreases |parts|
  {
    if |parts| > 1 {
      assert parts[1..][|parts| - 2] == parts[|parts| - 1];
      JoinLast(parts[1..], sep);
    }
  }

  // ---------------------------------------------------------------------
  // The optional fields.
  // ---------------------------------------------------------------------

  /** What the constructor does with an optional field, decided by its prefix in this order. */
  datatype FieldKind = NmField | MdField | JmField | JiField | OtherField

  function KindOf(field: string): FieldKind
  {
    if StartsWith(field, "NM") then NmField
    else if StartsWith(field, "MD") then MdField
    else if StartsWith(field, "jM") then JmField
    else if StartsWith(field, "jI") then JiField
    else OtherField
  }

  /** The field an attribute ends up holding: the last one of its kind, or "" when none. */
  function LastOfKind(fields: seq<string>, kind: FieldKind): string
    decreases |fields|
  {
    if fields == [] then ""
    else if KindOf(fields[|fields| - 1]) == kind then fields[|fields| - 1]
    else LastOfKind(fields[..|fields| - 1], kind)
  }

  /** The index of the last field of a kind, or -1. */
  function LastIndexOfKind(fields: seq<string>, kind: FieldKind): int
    decreases |fields|
  {
    if fields == [] then -1
    else if KindOf(fields[|fields| - 1]) == kind then |fields| - 1
    else LastIndexOfKind(fields[..|fields| - 1], kind)
  }

  /**
   * Later fields overwrite earlier ones: an attribute holds the field of its
   * kind that no later field of the same kind follows, and stays "" exactly
   * when no field has its kind.
   */
  lemma {:induction false} LastOfKindWins(fields: seq<string>, kind: FieldKind)
    requires kind != OtherField
    ensures var i := LastIndexOfKind(fields, kind);
            -1 <= i < |fields| &&
            (i == -1 ==> LastOfKind(fields, kind) == "" && forall j :: 0 <= j < |fields| ==> KindOf(fields[j]) != kind) &&
            (i >= 0 ==> LastOfKind(fields, kind) == fields[i] && KindOf(fields[i]) == kind &&
                        forall j :: i < j < |fields| ==> KindOf(fields[j]) != kind)
    decreases |fields|
  {
    if fields != [] && KindOf(fields[|fields| - 1]) != kind {
      var init := fields[..|fields| - 1];
      LastOfKindWins(init, kind);
      assert forall j :: 0 <= j < |init| ==> init[j] == fields[j];
    }
  }

  /** The fields of no recognised kind, in their original order. */
  function Others(fields: seq<string>): (r: seq<string>)
    ensures forall k :: 0 <= k < |r| ==> KindOf(r[k]) == OtherField
    decreases |fields|
  {
    if fields == [] then []
    else Others(fields[..|fields| - 1]) + (if KindOf(fields[|fields| - 1]) == OtherField then [fields[|fields| - 1]] else [])
  }

  /** Sorting out distributes over concatenation: the kept fields keep their relative order. */
  lemma {:induction false} OthersAppend(a: seq<string>, b: seq<string>)
    ensures Others(a + b) == Others(a) + Others(b)
    decreases |b|
  {
    if b == [] {
      assert a + b == a;
    } else {
      var b' := b[..|b| - 1];
      assert (a + b)[..|a + b| - 1] == a + b';
      OthersAppend(a, b');
    }
  }

  /** A field list without NM, MD, jM or jI fields is kept whole. */
  lemma {:induction false} OthersOfUntagged(fields: seq<string>)
    requires forall k :: 0 <= k < |fields| ==> KindOf(fields[k]) == OtherField
    ensures Others(fields) == fields
    decreases |fields|
  {
    if fields != [] {
      var init := fields[..|fields| - 1];
      OthersOfUntagged(init);
      assert init + [fields[|fields| - 1]] == fields;
    }
  }

  /** Every field either stays with the others or is of one of the four kinds. */
  lemma {:induction false} OthersCount(fields: seq<string>)
    ensures |Others(fields)| + TaggedCount(fields) == |fields|
    decreases |fields|
  {
    if fields != [] {
      OthersCount(fields[..|fields| - 1]);
    }
  }

  function TaggedCount(fields: seq<string>): nat
    decreases |fields|
  {
    if fields == [] then 0
    else TaggedCount(fields[..|fields| - 1]) + (if KindOf(fields[|fields| - 1]) == OtherField then 0 else 1)
  }
}
