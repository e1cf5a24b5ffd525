/** The FASTA rendering of a transcript (`printableFa`). */
module Fasta {
  import opened Text

  /** Python's `[s[i:i+w] for i in range(0, len(s), w)]`. */
  function Chunks(s: string, w: nat): (cs: seq<string>)
    requires w > 0
    decreases |s|
  {
    if |s| == 0 then []
    else if |s| <= w then [s]
    else [s[..w]] + Chunks(s[w..], w)
  }

  /** There are as many lines as `w`-wide slices are needed to cover the sequence. */
  lemma {:induction false} ChunkCount(s: string, w: nat)
    requires w > 0
    ensures |Chunks(s, w)| == 0 <==> |s| == 0
    ensures |s| > 0 ==> w * (|Chunks(s, w)| - 1) < |s| <= w * |Chunks(s, w)|
    decreases |s|
  {
    if |s| > w {
      ChunkCount(s[w..], w);
      var n := |Chunks(s[w..], w)|;
      assert |Chunks(s, w)| == n + 1;
      assert w * (n + 1) == w * n + w;
    }
  }

  /** Every line holds between 1 and `w` characters, and every line but the last exactly `w`. */
  lemma {:induction false} ChunkLengths(s: string, w: nat)
    requires w > 0
    ensures forall k :: 0 <= k < |Chunks(s, w)| ==> 0 < |Chunks(s, w)[k]| <= w
    ensures forall k :: 0 <= k < |Chunks(s, w)| - 1 ==> |Chunks(s, w)[k]| == w
    decreases |s|
  {
    if |s| > w {
      ChunkLengths(s[w..], w);
      var cs := Chunks(s, w);
      assert forall k :: 1 <= k < |cs| ==> cs[k] == Chunks(s[w..], w)[k - 1];
    }
  }

  /** The lines put back together are the sequence. */
  lemma {:induction false} ConcatChunks(s: string, w: nat)
    requires w > 0
    ensures Concat(Chunks(s, w)) == s
    decreases |s|
  {
    if |s| > w {
      ConcatChunks(s[w..], w);
      assert Chunks(s, w)[1..] == Chunks(s[w..], w);
      assert s[..w] + s[w..] == s;
    } else if |s| > 0 {
      assert Concat([s]) == s + Concat([]);
    }
  }

  lemma {:induction false} ChunksAvoid(s: string, w: nat, c: char)
    requires w > 0 && c !in s
    ensures forall k :: 0 <= k < |Chunks(s, w)| ==> c !in Chunks(s, w)[k]
    decreases |s|
  {
    if |s| > w {
      ChunksAvoid(s[w..], w, c);
      var cs := Chunks(s, w);
      assert forall k :: 1 <= k < |cs| ==> cs[k] == Chunks(s[w..], w)[k - 1];
      assert forall i :: 0 <= i < w ==> s[..w][i] == s[i];
    }
  }

  /** The width of a sequence line. */
  const LineWidth: nat := 80

  /** The FASTA text of a read: a `>` header line, then the sequence in lines of 80. */
  function FastaText(name: string, read: string): string
  {
    ">" + name + "\n" + Join(Chunks(read, LineWidth), "\n")
  }

  /**
   * Split at line breaks, the FASTA text of a non-empty read is the header
   * followed by the read's 80-column lines; an empty read leaves an empty
   * line after the header.
   */
  lemma FastaLines(name: string, read: string)
    requires '\n' !in name && '\n' !in read
    ensures read != [] ==> SplitOn(FastaText(name, read), '\n') == [">" + name] + Chunks(read, LineWidth)
    ensures read == [] ==> FastaText(name, read) == ">" + name + "\n"
  {
    var header := ">" + name;
    var body := Join(Chunks(read, LineWidth), "\n");
    assert FastaText(name, read) == header + ['\n'] + body;
    assert '\n' !in header;
    SplitOnAfter(header, body, '\n');
    if read != [] {
      ChunksAvoid(read, LineWidth, '\n');
      SplitOnJoin(Chunks(read, LineWidth), '\n');
    }
  }
}
