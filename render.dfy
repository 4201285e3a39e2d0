/** The render request builder: the ordered clip list becomes the transcoder's
    input list, a filter graph of one video trim and one audio trim per clip
    followed by a single concat, and the mapping of the concat's two outputs to
    the destination file. */
module Render {
  import opened Clips

  // ---------------------------------------------------- decimal index text

  function DigitChar(d: nat): (c: char)
    requires d < 10
    ensures '0' <= c <= '9'
  {
    ('0' as int + d) as char
  }

  predicate IsDigits(s: string) {
    forall i :: 0 <= i < |s| ==> '0' <= s[i] <= '9'
  }

  /** A template literal `${n}` of a non-negative integer: decimal digits,
      without leading zeros. */
  function NatText(n: nat): (s: string)
    ensures |s| >= 1 && IsDigits(s)
    ensures |s| > 1 ==> s[0] != '0'
  {
    if n < 10 then [DigitChar(n)] else NatText(n / 10) + [DigitChar(n % 10)]
  }

  /** Reading a digit string back as a number. */
  function DecimalValue(s: string): nat
    requires IsDigits(s)
  {
    if |s| == 0 then 0
    else DecimalValue(s[..|s| - 1]) * 10 + (s[|s| - 1] as int - '0' as int)
  }

  lemma {:induction false} DecimalRoundTrip(n: nat)
    ensures DecimalValue(NatText(n)) == n
  {
    if n >= 10 {
      var s := NatText(n);
      assert s[..|s| - 1] == NatText(n / 10);
      DecimalRoundTrip(n / 10);
    }
  }

  /** Different indices print differently. */
  lemma NatTextInjective(a: nat, b: nat)
    requires NatText(a) == NatText(b)
    ensures a == b
  {
    DecimalRoundTrip(a);
    DecimalRoundTrip(b);
  }

  // ------------------------------------------------------- stream labels

  datatype Stream = Video | Audio

  function StreamLetter(st: Stream): string {
    match st
    case Video => "v"
    case Audio => "a"
  }

  /** `[i:v]` or `[i:a]`: stream selector for the i-th input file. */
  function InputStream(st: Stream, i: nat): string {
    "[" + NatText(i) + ":" + StreamLetter(st) + "]"
  }

  /** `[vi]` or `[ai]`: the label of clip i's trimmed stream. */
  function PadLabel(st: Stream, i: nat): string {
    "[" + StreamLetter(st) + NatText(i) + "]"
  }

  /** No two trimmed streams share a label. */
  lemma PadLabelsDistinct(st1: Stream, i: nat, st2: Stream, j: nat)
    requires st1 != st2 || i != j
    ensures PadLabel(st1, i) != PadLabel(st2, j)
  {
    var l1, l2 := PadLabel(st1, i), PadLabel(st2, j);
    if l1 == l2 {
      assert l1[1] == StreamLetter(st1)[0] && l2[1] == StreamLetter(st2)[0];
      assert l1[2..|l1| - 1] == NatText(i);
      assert l2[2..|l2| - 1] == NatText(j);
      NatTextInjective(i, j);
    }
  }

  // ------------------------------------------------------------- filters

  /** The trim entry of clip i for one stream: select input i's stream, keep
      [start, end) of the source, reset timestamps, label the result. The bounds
      are turned into text by `num`, standing for JavaScript's number-to-string
      conversion in the template literal. */
  function TrimFilter(st: Stream, i: nat, c: Clip, num: real -> string): string {
    match st
    case Video =>
      InputStream(Video, i) + "trim=start=" + num(c.start) + ":end=" + num(c.end)
      + ",setpts=PTS-STARTPTS" + PadLabel(Video, i)
    case Audio =>
      InputStream(Audio, i) + "atrim=start=" + num(c.start) + ":end=" + num(c.end)
      + ",asetpts=PTS-STARTPTS" + PadLabel(Audio, i)
  }

  /** The trim entries of the first n clips, in push order. */
  function TrimEntries(clips: seq<Clip>, n: nat, num: real -> string): seq<string>
    requires n <= |clips|
  {
    if n == 0 then []
    else TrimEntries(clips, n - 1, num)
         + [TrimFilter(Video, n - 1, clips[n - 1], num), TrimFilter(Audio, n - 1, clips[n - 1], num)]
  }

  /** Clip k owns entries 2k (video) and 2k+1 (audio). */
  lemma {:induction false} TrimEntriesShape(clips: seq<Clip>, n: nat, num: real -> string)
    requires n <= |clips|
    ensures |TrimEntries(clips, n, num)| == 2 * n
    ensures forall k :: 0 <= k < n ==>
      && TrimEntries(clips, n, num)[2 * k] == TrimFilter(Video, k, clips[k], num)
      && TrimEntries(clips, n, num)[2 * k + 1] == TrimFilter(Audio, k, clips[k], num)
  {
    if n > 0 {
      var prev := TrimEntries(clips, n - 1, num);
      var v, a := TrimFilter(Video, n - 1, clips[n - 1], num), TrimFilter(Audio, n - 1, clips[n - 1], num);
      assert TrimEntries(clips, n, num) == prev + [v, a];
      TrimEntriesShape(clips, n - 1, num);
      forall k | 0 <= k < n
        ensures TrimEntries(clips, n, num)[2 * k] == TrimFilter(Video, k, clips[k], num)
        ensures TrimEntries(clips, n, num)[2 * k + 1] == TrimFilter(Audio, k, clips[k], num)
      {
        if k < n - 1 {
          assert (prev + [v, a])[2 * k] == prev[2 * k];
          assert (prev + [v, a])[2 * k + 1] == prev[2 * k + 1];
        }
      }
    }
  }

  /** `[vi][ai]`: the concat inputs contributed by clip i. */
  function PairLabels(i: nat): string {
    PadLabel(Video, i) + PadLabel(Audio, i)
  }

  /** `parts.join('')`. */
  function Join(parts: seq<string>): string {
    if |parts| == 0 then "" else Join(parts[..|parts| - 1]) + parts[|parts| - 1]
  }

  /** The concat inputs of n clips: `[v0][a0]...[v(n-1)][a(n-1)]`. */
  function ConcatInputs(n: nat): (r: string)
    ensures n > 0 ==> |PairLabels(n - 1)| <= |r| && r[|r| - |PairLabels(n - 1)|..] == PairLabels(n - 1)
  {
    if n == 0 then "" else ConcatInputs(n - 1) + PairLabels(n - 1)
  }

  /** The concat entry over the joined input labels of n clips, with one
      video and one audio output, labelled `[outv]` and `[outa]`. */
  function ConcatEntry(joined: string, n: nat): string {
    joined + "concat=n=" + NatText(n) + ":v=1:a=1[outv][outa]"
  }

  /** The concat entry for n clips. */
  function ConcatFilter(n: nat): (r: string)
    ensures |ConcatInputs(n)| <= |r| && r[..|ConcatInputs(n)|] == ConcatInputs(n)
    ensures |r| >= 20 && r[|r| - 20..] == ":v=1:a=1[outv][outa]"
  {
    ConcatEntry(ConcatInputs(n), n)
  }

  /** The whole filter graph: the trim entries of every clip, then the concat. */
  function FilterGraph(clips: seq<Clip>, num: real -> string): (r: seq<string>)
    ensures |r| >= 1 && r[|r| - 1] == ConcatFilter(|clips|)
  {
    TrimEntries(clips, |clips|, num) + [ConcatFilter(|clips|)]
  }

  /** The graph has two trim entries per clip in timeline order, each reading
      that clip's input and its [start, end) window, and ends with the concat
      of all of them. */
  lemma FilterGraphShape(clips: seq<Clip>, num: real -> string)
    ensures var g := FilterGraph(clips, num);
      && |g| == 2 * |clips| + 1
      && (forall i :: 0 <= i < |clips| ==>
            && g[2 * i] == TrimFilter(Video, i, clips[i], num)
            && g[2 * i + 1] == TrimFilter(Audio, i, clips[i], num))
      && g[2 * |clips|] == ConcatFilter(|clips|)
  {
    TrimEntriesShape(clips, |clips|, num);
  }

  const OutputOptions: seq<string> := ["-map [outv]", "-map [outa]"]

  /** The job handed to the transcoder. */
  datatype RenderJob = RenderJob(
    inputs: seq<string>,
    filterComplex: seq<string>,
    outputOptions: seq<string>,
    output: string)

  /** Builds the render job for `clips`, in timeline order. */
  method ExportVideo(clips: seq<Clip>, outputPath: string, num: real -> string)
    returns (job: RenderJob)
    ensures |job.inputs| == |clips|
    ensures forall i :: 0 <= i < |clips| ==> job.inputs[i] == clips[i].path
    ensures job.filterComplex == FilterGraph(clips, num)
    ensures job.outputOptions == OutputOptions && job.output == outputPath
  {
    var inputs: seq<string> := [];
    var i := 0;
    while i < |clips|
      invariant 0 <= i <= |clips|
      invariant |inputs| == i
      invariant forall k :: 0 <= k < i ==> inputs[k] == clips[k].path
    {
      inputs := inputs + [clips[i].path];
      i := i + 1;
    }

    var filterComplex: seq<string> := [];
    var outputs: seq<string> := [];
    i := 0;
    while i < |clips|
      invariant 0 <= i <= |clips|
      invariant filterComplex == TrimEntries(clips, i, num)
      invariant Join(outputs) == ConcatInputs(i)
    {
      filterComplex := filterComplex + [TrimFilter(Video, i, clips[i], num)];
      filterComplex := filterComplex + [TrimFilter(Audio, i, clips[i], num)];
      ghost var prev := outputs;
      outputs := outputs + [PairLabels(i)];
      assert outputs[..|outputs| - 1] == prev;
      i := i + 1;
    }
    filterComplex := filterComplex + [ConcatEntry(Join(outputs), |clips|)];

    job := RenderJob(inputs, filterComplex, OutputOptions, outputPath);
  }
}
