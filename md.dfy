/** Decoding of the MD tag (`splitMD`) and the token form in which MD strings are built. */
module MdTag {
  import opened Results
  import opened Text

  /** `MD.split(":")[2]`: the value part of an `MD:Z:<value>` field. */
  function MdBody(md: string): (r: Result<string>)
    ensures r.Err? <==> |SplitOn(md, ':')| < 3
  {
    var parts := SplitOn(md, ':');
    if |parts| < 3 then Err(IndexOutOfRange) else Ok(parts[2])
  }

  /**
   * The run for one group of the MD value: a numeral is a match run of that
   * length (zero included), a group starting with `^` a deletion of its
   * length minus the caret, anything else one mismatch per character.
   */
  function MdRun(group: string): (r: Run)
    ensures r.op in {"M", "X", "D"}
    ensures |group| > 0 && AllDigits(group) ==> r == Run("M", ParseNat(group))
    ensures |group| > 0 && group[0] == '^' ==> r == Run("D", |group| - 1)
    ensures |group| > 0 && !IsDigit(group[0]) && group[0] != '^' ==> r == Run("X", |group|)
  {
    if |group| > 0 && AllDigits(group) then Run("M", ParseNat(group))
    else if |group| > 0 && group[0] == '^' then Run("D", |group| - 1)
    else Run("X", |group|)
  }

  /** The runs `splitMD` produces, as one list of pairs. */
  function MdRunsOf(md: string): Result<seq<Run>>
  {
    match MdBody(md)
    case Err(e) => Err(e)
    case Ok(body) =>
      var groups := Groups(body);
      Ok(seq(|groups|, k requires 0 <= k < |groups| => MdRun(groups[k])))
  }

  /**
   * `splitMD`: groups the MD value by digit-ness and turns the groups, one by
   * one, into an operation list and a count list of the same length.
   */
  method SplitMd(md: string) returns (r: Result<(seq<string>, seq<nat>)>)
    ensures r.Ok? <==> MdRunsOf(md).Ok?
    ensures r.Err? ==> r == Err(IndexOutOfRange)
    ensures r.Ok? ==> |r.value.0| == |r.value.1| && ZipFrom(r.value.0, r.value.1, 0) == MdRunsOf(md).value
    ensures r.Ok? ==> forall k :: 0 <= k < |r.value.0| ==> r.value.0[k] in {"M", "X", "D"}
  {
    var parts := SplitOn(md, ':');
    if |parts| < 3 {
      return Err(IndexOutOfRange);
    }
    var body := parts[2];
    var groups := Groups(body);
    var operations: seq<string> := [];
    var counts: seq<nat> := [];
    for i := 0 to |groups|
      invariant |operations| == |counts| == i
      invariant forall k :: 0 <= k < i ==> Run(operations[k], counts[k]) == MdRun(groups[k])
    {
      var curr := groups[i];
      if |curr| > 0 && AllDigits(curr) {
        counts := counts + [ParseNat(curr)];
        operations := operations + ["M"];
      } else if |curr| > 0 && curr[0] == '^' {
        operations := operations + ["D"];
        counts := counts + [|curr| - 1];
      } else {
        operations := operations + ["X"];
        counts := counts + [|curr|];
      }
    }
    r := Ok((operations, counts));
  }

  // ---------------------------------------------------------------------
  // MD values as tokens: a match count, one mismatched reference base, or a
  // deletion (`^` followed by the deleted reference bases).
  // ---------------------------------------------------------------------

  datatype MdToken = Count(n: nat) | Mismatch(base: char) | Deletion(bases: string)

  /** A reference base that can stand in an MD value without being misread. */
  predicate IsBase(c: char) { !IsDigit(c) && c != '^' && c != ':' }

  predicate AllBases(s: string) { forall i :: 0 <= i < |s| ==> IsBase(s[i]) }

  predicate TokenOk(t: MdToken)
  {
    match t
    case Count(_) => true
    case Mismatch(b) => IsBase(b)
    case Deletion(bs) => AllBases(bs)
  }

  function RenderToken(t: MdToken): string
  {
    match t
    case Count(n) => NatToString(n)
    case Mismatch(b) => [b]
    case Deletion(bs) => "^" + bs
  }

  function Render(toks: seq<MdToken>): string
  {
    if toks == [] then "" else RenderToken(toks[0]) + Render(toks[1..])
  }

  /** The run one token stands for. */
  function TokenRun(t: MdToken): Run
  {
    match t
    case Count(n) => Run("M", n)
    case Mismatch(_) => Run("X", 1)
    case Deletion(bs) => Run("D", |bs|)
  }

  function TokenRuns(toks: seq<MdToken>): (r: seq<Run>)
    ensures |r| == |toks| && forall k :: 0 <= k < |toks| ==> r[k] == TokenRun(toks[k])
  {
    seq(|toks|, k requires 0 <= k < |toks| => TokenRun(toks[k]))
  }

  /**
   * The shape of a generated MD value: a count, then alternately a mismatch
   * or deletion and the next count, where the final count may be missing.
   * So every mismatch and every deletion is directly preceded by a count.
   */
  predicate Shaped(toks: seq<MdToken>)
    decreases |toks|
  {
    toks == [] ||
    (toks[0].Count? &&
     (|toks| == 1 || (!toks[1].Count? && TokenOk(toks[1]) && Shaped(toks[2..]))))
  }

  /** A shaped token list that ends in a mismatch or a deletion (or is empty). */
  predicate Paired(toks: seq<MdToken>) { Shaped(toks) && |toks| % 2 == 0 }

  lemma {:induction false} PairedAppend(toks: seq<MdToken>, n: nat, t: MdToken)
    requires Paired(toks) && !t.Count? && TokenOk(t)
    ensures Paired(toks + [Count(n), t])
    decreases |toks|
  {
    if toks != [] {
      assert (toks + [Count(n), t])[2..] == toks[2..] + [Count(n), t];
      PairedAppend(toks[2..], n, t);
    }
  }

  lemma {:induction false} PairedClose(toks: seq<MdToken>, n: nat)
    requires Paired(toks)
    ensures Shaped(toks + [Count(n)])
    decreases |toks|
  {
    if toks != [] {
      assert (toks + [Count(n)])[2..] == toks[2..] + [Count(n)];
      PairedClose(toks[2..], n);
    }
  }

  lemma {:induction false} RenderNoColon(toks: seq<MdToken>)
    requires forall k :: 0 <= k < |toks| ==> TokenOk(toks[k])
    ensures ':' !in Render(toks)
  {
    if toks != [] {
      RenderNoColon(toks[1..]);
      var r := RenderToken(toks[0]);
      assert ':' !in r by {
        match toks[0]
        case Count(n) =>
        case Mismatch(b) =>
        case Deletion(bs) => assert forall i :: 0 <= i < |r| ==> r[i] == '^' || r[i] == bs[i - 1];
      }
    }
  }

  lemma {:induction false} ShapedTokensOk(toks: seq<MdToken>)
    requires Shaped(toks)
    ensures forall k :: 0 <= k < |toks| ==> TokenOk(toks[k])
    decreases |toks|
  {
    if |toks| > 1 {
      ShapedTokensOk(toks[2..]);
      forall k | 2 <= k < |toks| ensures TokenOk(toks[k]) {
        assert toks[k] == toks[2..][k - 2];
      }
    }
  }

  /** The rendered tokens of a shaped list are exactly its digit-ness groups. */
  lemma {:induction false} GroupsOfRender(toks: seq<MdToken>)
    requires Shaped(toks)
    ensures Groups(Render(toks)) == seq(|toks|, k requires 0 <= k < |toks| => RenderToken(toks[k]))
    decreases |toks|
  {
    if toks == [] {
    } else if |toks| == 1 {
      var n := RenderToken(toks[0]);
      assert Render(toks) == n + "";
      GroupsToken(n, "");
    } else {
      var n := RenderToken(toks[0]);
      var t := RenderToken(toks[1]);
      var rest := Render(toks[2..]);
      assert toks[1..][1..] == toks[2..];
      assert Render(toks) == n + (t + rest);
      assert |t| > 0 && Homogeneous(t, false) && !IsDigit(t[0]) by {
        match toks[1]
        case Mismatch(b) =>
        case Deletion(bs) => assert forall i :: 1 <= i < |t| ==> t[i] == bs[i - 1];
      }
      assert (t + rest)[0] == t[0];
      GroupsToken(n, t + rest);
      if toks[2..] != [] {
        assert rest == RenderToken(toks[2]) + Render(toks[3..]) by {
          assert toks[2..][0] == toks[2];
          assert toks[2..][1..] == toks[3..];
        }
        assert IsDigit(rest[0]);
      }
      GroupsToken(t, rest);
      GroupsOfRender(toks[2..]);
    }
  }

  /** Reading back the rendering of a token gives the run that token stands for. */
  lemma MdRunOfToken(t: MdToken)
    requires TokenOk(t)
    ensures MdRun(RenderToken(t)) == TokenRun(t)
  {
    match t
    case Count(n) => ParseNatToString(n);
    case Mismatch(b) => assert !IsDigit([b][0]);
    case Deletion(bs) => assert !IsDigit(("^" + bs)[0]);
  }

  /** The value part of `MD:Z:` followed by a colon-free body is that body. */
  lemma MdBodyOf(body: string)
    requires ':' !in body
    ensures MdBody("MD:Z:" + body) == Ok(body)
  {
    SplitOnNone(body, ':');
    SplitOnAfter("Z", body, ':');
    SplitOnAfter("MD", "Z" + [':'] + body, ':');
    assert "MD:Z:" + body == "MD" + [':'] + ("Z" + [':'] + body);
  }

  /**
   * Decoding an MD field rendered from a shaped token list gives back one run
   * per token: a count as a match run, a mismatch as one mismatch, a deletion
   * as a deletion run of its base count.
   */
  lemma {:induction false} MdRunsOfRender(toks: seq<MdToken>)
    requires Shaped(toks)
    ensures MdRunsOf("MD:Z:" + Render(toks)) == Ok(TokenRuns(toks))
  {
    var body := Render(toks);
    ShapedTokensOk(toks);
    RenderNoColon(toks);
    MdBodyOf(body);
    GroupsOfRender(toks);
    var groups := Groups(body);
    forall k | 0 <= k < |toks| ensures MdRun(groups[k]) == TokenRun(toks[k]) {
      MdRunOfToken(toks[k]);
    }
    assert seq(|groups|, k requires 0 <= k < |groups| => MdRun(groups[k])) == TokenRuns(toks);
  }
}
