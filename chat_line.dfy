/** The two conventions of a `.cha` transcript line that both scripts share:
    spoken lines start with an asterisk, and the speaker code follows it. */
module ChatLine {
  import opened Markup

  /** `line[0] == '*'`; Python raises IndexError on an empty line, so the
      line must not be empty. */
  predicate IsPartOfConversation(line: string): (spoken: bool)
    requires |line| > 0
    ensures IsSpeakerTag(line) ==> spoken
  {
    line[0] == '*'
  }

  /** `line[1:4]`: the slice clamps at the end of the line, so a short line
      gives a shorter (possibly empty) code. */
  function GetSpeaker(line: string): (code: string)
    ensures |code| == if |line| >= 4 then 3 else if |line| >= 1 then |line| - 1 else 0
    ensures forall i :: 0 <= i < |code| ==> code[i] == line[i + 1]
  {
    if |line| >= 4 then line[1..4] else if |line| >= 1 then line[1..] else []
  }
}
