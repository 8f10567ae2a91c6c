/** Lines such as `*LAU:\thello um [//] world` followed through the whole of
    `get_line_summary`: the tag and the retracing mark go, and every word on
    either side counts, fillers included. */
module RetraceLines {
  import opened Wrappers
  import opened Text
  import opened Sanitizer
  import opened WordCounts
  import opened LineSummaries

  /** A tagged line of letters and spaces around `[//]` is accepted, and its
      counts are those of the words on both sides of the mark. */
  lemma RetraceLineSummary(code: string, u: string, w: string)
    requires |code| == 3 && forall i :: 0 <= i < 3 ==> IsAsciiUpper(code[i])
    requires IsPlain(u) && IsPlain(w)
    ensures LineSummary("*" + code + ":\t" + u + "[//]" + w) == Success(LineCounts(u + w))
  {
    TaggedRetraceLine(code, u, w);
    var spoken := u + w;
    forall i | 0 <= i < |spoken| ensures IsKnownChar(spoken[i]) {
      if i < |u| {
        assert spoken[i] == u[i];
      } else {
        assert spoken[i] == w[i - |u|];
      }
    }
  }
}
