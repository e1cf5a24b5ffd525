/** Pairing the junction motifs of a `jM` field with the intron bounds of a `jI` field. */
module Junctions {
  import opened Results
  import opened Text

  /**
   * One splice junction of a transcript: its number within the transcript,
   * the bounds of its intron, its `jM` motif code and whether it is
   * canonical. The bounds stand for the two intron-bound objects of the
   * junction.
   */
  datatype Junction = Junction(
    transcript: string, index: nat, chrom: string, start: int, end: int,
    strand: string, motif: string, isCanonical: bool)

  /**
   * Whether a junction is canonical, as decided from the reference genome
   * outside this model, given the contig, the bounds, the strand and the motif.
   */
  type Verdict = (string, int, int, string, string) -> bool

  /** `tag.split(":")[-1].split(",")[1:]`: the values after the type code of a `B` array field. */
  function ArrayValues(tag: string): seq<string>
  {
    var parts := SplitOn(tag, ':');
    var items := SplitOn(parts[|parts| - 1], ',');
    items[1..]
  }

  /**
   * The junctions from the `k`-th motif on. Motif `k` is paired with bounds
   * `2k` and `2k + 1`, looked up and converted in that order.
   */
  function PairFrom(qname: string, chrom: string, strand: string, motifs: seq<string>, bounds: seq<string>,
                    canonical: Verdict, k: nat): Result<seq<Junction>>
    requires k <= |motifs|
    decreases |motifs| - k
  {
    if k == |motifs| then Ok([])
    else if 2 * k >= |bounds| then Err(IndexOutOfRange)
    else match ParseInt(bounds[2 * k])
      case None => Err(NotAnInteger)
      case Some(start) =>
        if 2 * k + 1 >= |bounds| then Err(IndexOutOfRange)
        else match ParseInt(bounds[2 * k + 1])
          case None => Err(NotAnInteger)
          case Some(end) =>
            var jn := Junction(qname, k, chrom, start, end, strand, motifs[k],
                               canonical(chrom, start, end, strand, motifs[k]));
            match PairFrom(qname, chrom, strand, motifs, bounds, canonical, k + 1)
            case Err(e) => Err(e)
            case Ok(rest) => Ok([jn] + rest)
  }

  /** One motif further: the error `PairFrom` stops with at `k`, or the junction it adds there. */
  lemma PairFromAt(qname: string, chrom: string, strand: string, motifs: seq<string>, bounds: seq<string>,
                   canonical: Verdict, k: nat)
    requires k < |motifs|
    ensures var r := PairFrom(qname, chrom, strand, motifs, bounds, canonical, k);
            if 2 * k >= |bounds| then r == Err(IndexOutOfRange)
            else if ParseInt(bounds[2 * k]).None? then r == Err(NotAnInteger)
            else if 2 * k + 1 >= |bounds| then r == Err(IndexOutOfRange)
            else if ParseInt(bounds[2 * k + 1]).None? then r == Err(NotAnInteger)
            else
              var start, end := ParseInt(bounds[2 * k]).value, ParseInt(bounds[2 * k + 1]).value;
              r == Prepend(Junction(qname, k, chrom, start, end, strand, motifs[k], canonical(chrom, start, end, strand, motifs[k])),
                           PairFrom(qname, chrom, strand, motifs, bounds, canonical, k + 1))
  {
  }

  /** What `parseSpliceJunctions` builds from the record's `jM` and `jI` fields. */
  function ParseJunctions(qname: string, chrom: string, strand: string, jm: string, ji: string,
                          canonical: Verdict): Result<seq<Junction>>
  {
    PairFrom(qname, chrom, strand, ArrayValues(jm), ArrayValues(ji), canonical, 0)
  }

  /** Every bound from `2k` to the last one needed is present and an integer. */
  predicate BoundsFrom(bounds: seq<string>, k: nat, n: nat)
  {
    (k < n ==> 2 * n <= |bounds|) && forall i :: 2 * k <= i < 2 * n ==> ParseInt(bounds[i]).Some?
  }

  /**
   * Pairing succeeds exactly when there are at least two bounds per motif and
   * all of those are integers; then junction `k` carries motif `k`, number
   * `k`, and bounds `2k` and `2k + 1`.
   */
  lemma {:induction false} PairFromSpec(qname: string, chrom: string, strand: string, motifs: seq<string>,
                                        bounds: seq<string>, canonical: Verdict, k: nat)
    requires k <= |motifs|
    ensures var r := PairFrom(qname, chrom, strand, motifs, bounds, canonical, k);
            (r.Ok? <==> BoundsFrom(bounds, k, |motifs|)) &&
            (r.Ok? ==>
               |r.value| == |motifs| - k &&
               forall j :: 0 <= j < |r.value| ==>
                r.value[j].index == k + j && r.value[j].motif == motifs[k + j] &&
                r.value[j].transcript == qname && r.value[j].chrom == chrom && r.value[j].strand == strand &&
                ParseInt(bounds[2 * (k + j)]) == Some(r.value[j].start) &&
                ParseInt(bounds[2 * (k + j) + 1]) == Some(r.value[j].end) &&
                r.value[j].isCanonical == canonical(chrom, r.value[j].start, r.value[j].end, strand, motifs[k + j]))
    decreases |motifs| - k
  {
    if k < |motifs| {
      PairFromSpec(qname, chrom, strand, motifs, bounds, canonical, k + 1);
      assert BoundsFrom(bounds, k, |motifs|) <==>
        2 * k + 1 < |bounds| && ParseInt(bounds[2 * k]).Some? && ParseInt(bounds[2 * k + 1]).Some? &&
        BoundsFrom(bounds, k + 1, |motifs|);
    }
  }

  /** The bound positions of the junctions in order (`getAllIntronBounds`). */
  function Flatten(js: seq<Junction>): (r: seq<int>)
    ensures |r| == 2 * |js|
    ensures forall k :: 0 <= k < |js| ==> r[2 * k] == js[k].start && r[2 * k + 1] == js[k].end
  {
    if js == [] then [] else [js[0].start, js[0].end] + Flatten(js[1..])
  }

  /**
   * Parsing the junctions and listing their intron bounds again gives the
   * integers of the `jI` field, as many as the `jM` field has motifs.
   */
  lemma FlattenParsed(qname: string, chrom: string, strand: string, jm: string, ji: string, canonical: Verdict)
    requires ParseJunctions(qname, chrom, strand, jm, ji, canonical).Ok?
    ensures var js := ParseJunctions(qname, chrom, strand, jm, ji, canonical).value;
            |js| == |ArrayValues(jm)| && 2 * |js| <= |ArrayValues(ji)| &&
            forall i :: 0 <= i < 2 * |js| ==> ParseInt(ArrayValues(ji)[i]) == Some(Flatten(js)[i])
  {
    var motifs, bounds := ArrayValues(jm), ArrayValues(ji);
    var js := PairFrom(qname, chrom, strand, motifs, bounds, canonical, 0).value;
    PairFromSpec(qname, chrom, strand, motifs, bounds, canonical, 0);
    assert forall j :: 0 <= j < |js| ==> BoundsOf(js, bounds, j);
    FlattenBounds(js, bounds);
  }

  /** Junction `j` carries bounds `2j` and `2j + 1` of `bounds`. */
  predicate BoundsOf(js: seq<Junction>, bounds: seq<string>, j: nat)
    requires j < |js| && 2 * |js| <= |bounds|
  {
    ParseInt(bounds[2 * j]) == Some(js[j].start) && ParseInt(bounds[2 * j + 1]) == Some(js[j].end)
  }

  lemma FlattenBounds(js: seq<Junction>, bounds: seq<string>)
    requires 2 * |js| <= |bounds|
    requires forall j :: 0 <= j < |js| ==> BoundsOf(js, bounds, j)
    ensures forall i :: 0 <= i < 2 * |js| ==> ParseInt(bounds[i]) == Some(Flatten(js)[i])
  {
    forall i | 0 <= i < 2 * |js|
      ensures ParseInt(bounds[i]) == Some(Flatten(js)[i])
    {
      FlattenAt(js, i);
      assert BoundsOf(js, bounds, i / 2);
    }
  }

  /** Entry `i` of the flattened bounds is a bound of junction `i / 2`. */
  lemma FlattenAt(js: seq<Junction>, i: nat)
    requires i < 2 * |js|
    ensures i / 2 < |js|
    ensures i % 2 == 0 ==> i == 2 * (i / 2) && Flatten(js)[i] == js[i / 2].start
    ensures i % 2 == 1 ==> i == 2 * (i / 2) + 1 && Flatten(js)[i] == js[i / 2].end
  {
    var k := i / 2;
    assert i == 2 * k || i == 2 * k + 1;
  }

  /** Whether every junction is canonical. */
  predicate AllCanonical(js: seq<Junction>)
  {
    forall k :: 0 <= k < |js| ==> js[k].isCanonical
  }

  lemma AllCanonicalAppend(js: seq<Junction>, j: Junction)
    ensures AllCanonical(js + [j]) == (AllCanonical(js) && j.isCanonical)
  {
    assert forall k :: 0 <= k < |js| ==> (js + [j])[k] == js[k];
    assert (js + [j])[|js|] == j;
  }
}
