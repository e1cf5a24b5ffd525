/** Decoding of the CIGAR column (`splitCIGAR`). */
module Cigar {
  import opened Results
  import opened Text

  predicate AllNumerals(toks: seq<string>)
  {
    forall i :: 0 <= i < |toks| ==> AllDigits(toks[i])
  }

  /** `[int(i) for i in toks]` on tokens that are all numerals. */
  function ParseNats(toks: seq<string>): (r: seq<nat>)
    requires AllNumerals(toks)
    ensures |r| == |toks|
  {
    if toks == [] then [] else [ParseNat(toks[0])] + ParseNats(toks[1..])
  }

  /**
   * `splitCIGAR`: the operation names are the pieces left after blanking
   * digits, the counts are the pieces left after blanking capital letters.
   * A count piece that is not a numeral makes `int()` raise ValueError.
   */
  function SplitCigar(cigar: string): Result<(seq<string>, seq<nat>)>
  {
    var alignTypes := Fields(cigar, Digits);
    var countText := Fields(cigar, Uppers);
    if AllNumerals(countText) then Ok((alignTypes, ParseNats(countText)))
    else Err(NotAnInteger)
  }

  /** Writes `str(count) + op` for every run, in order: a CIGAR string. */
  function Encode(ops: seq<char>, counts: seq<nat>): string
    requires |ops| == |counts|
  {
    if ops == [] then "" else NatToString(counts[0]) + [ops[0]] + Encode(ops[1..], counts[1..])
  }

  /** Each operation letter as a one-character string. */
  function Letters(ops: seq<char>): (r: seq<string>)
    ensures |r| == |ops| && forall i :: 0 <= i < |ops| ==> r[i] == [ops[i]]
  {
    seq(|ops|, i requires 0 <= i < |ops| => [ops[i]])
  }

  function Numerals(counts: seq<nat>): (r: seq<string>)
    ensures |r| == |counts| && forall i :: 0 <= i < |counts| ==> r[i] == NatToString(counts[i])
  {
    seq(|counts|, i requires 0 <= i < |counts| => NatToString(counts[i]))
  }

  /** The runs of a CIGAR built from capital letters and counts greater than zero. */
  predicate WellFormedRuns(ops: seq<char>, counts: seq<nat>)
  {
    |ops| == |counts| &&
    (forall i :: 0 <= i < |ops| ==> IsUpper(ops[i])) &&
    (forall i :: 0 <= i < |counts| ==> counts[i] > 0)
  }

  lemma EncodeStartsWithDigit(ops: seq<char>, counts: seq<nat>)
    requires |ops| == |counts| && ops != []
    ensures |Encode(ops, counts)| > 0 && IsDigit(Encode(ops, counts)[0])
  {
    var n := NatToString(counts[0]);
    assert Encode(ops, counts)[0] == n[0];
  }

  lemma {:induction false} EncodeTypeFields(ops: seq<char>, counts: seq<nat>)
    requires WellFormedRuns(ops, counts)
    ensures Fields(Encode(ops, counts), Digits) == Letters(ops)
  {
    if ops != [] {
      var n := NatToString(counts[0]);
      var rest := Encode(ops[1..], counts[1..]);
      assert Encode(ops, counts) == n + ([ops[0]] + rest);
      FieldsSkip(n, [ops[0]] + rest, Digits);
      if ops[1..] != [] {
        EncodeStartsWithDigit(ops[1..], counts[1..]);
      }
      FieldsToken([ops[0]], rest, Digits);
      EncodeTypeFields(ops[1..], counts[1..]);
      assert Letters(ops) == [[ops[0]]] + Letters(ops[1..]);
    }
  }

  lemma {:induction false} EncodeCountFields(ops: seq<char>, counts: seq<nat>)
    requires WellFormedRuns(ops, counts)
    ensures Fields(Encode(ops, counts), Uppers) == Numerals(counts)
  {
    if ops != [] {
      var n := NatToString(counts[0]);
      var rest := Encode(ops[1..], counts[1..]);
      assert Encode(ops, counts) == n + ([ops[0]] + rest);
      FieldsToken(n, [ops[0]] + rest, Uppers);
      FieldsSkip([ops[0]], rest, Uppers);
      EncodeCountFields(ops[1..], counts[1..]);
      assert Numerals(counts) == [n] + Numerals(counts[1..]);
    }
  }

  lemma {:induction false} ParseNumerals(counts: seq<nat>)
    ensures AllNumerals(Numerals(counts)) && ParseNats(Numerals(counts)) == counts
  {
    if counts != [] {
      ParseNatToString(counts[0]);
      assert Numerals(counts)[1..] == Numerals(counts[1..]);
      ParseNumerals(counts[1..]);
    }
  }

  /**
   * Decoding a well-formed CIGAR string gives back its operation letters and
   * its counts, as two lists of equal length in input order.
   */
  lemma SplitCigarEncode(ops: seq<char>, counts: seq<nat>)
    requires WellFormedRuns(ops, counts)
    ensures SplitCigar(Encode(ops, counts)) == Ok((Letters(ops), counts))
  {
    EncodeTypeFields(ops, counts);
    EncodeCountFields(ops, counts);
    ParseNumerals(counts);
  }

  /** Re-joining `str(count) + op` over two decoded lists. */
  function Rejoin(types: seq<string>, counts: seq<nat>): string
    requires |types| == |counts|
  {
    if types == [] then "" else NatToString(counts[0]) + types[0] + Rejoin(types[1..], counts[1..])
  }

  /**
   * On a well-formed CIGAR string, `splitCIGAR` yields lists of equal length
   * with one-letter operations and counts above zero, and re-joining them
   * reproduces the string exactly.
   */
  lemma {:induction false} SplitCigarRejoins(cigar: string, ops: seq<char>, counts: seq<nat>)
    requires WellFormedRuns(ops, counts) && cigar == Encode(ops, counts)
    ensures SplitCigar(cigar).Ok?
    ensures var (types, cnts) := SplitCigar(cigar).value;
      |types| == |cnts| &&
      (forall i :: 0 <= i < |types| ==> |types[i]| == 1 && IsUpper(types[i][0]) && cnts[i] > 0) &&
      Rejoin(types, cnts) == cigar
  {
    SplitCigarEncode(ops, counts);
    RejoinLetters(ops, counts);
  }

  lemma {:induction false} RejoinLetters(ops: seq<char>, counts: seq<nat>)
    requires |ops| == |counts|
    ensures Rejoin(Letters(ops), counts) == Encode(ops, counts)
  {
    if ops != [] {
      assert Letters(ops)[1..] == Letters(ops[1..]);
      RejoinLetters(ops[1..], counts[1..]);
    }
  }
}
