/**
  `generateCommentary`: ask the completion service first and fall back to the
  rule-based lines. The service's answer is a parameter (`None` when the
  request failed, timed out, was refused or had no message content).
*/
module Commentary {
  import opened Wrappers
  import opened JsText
  import opened JsArray
  import opened Prompt
  import opened Sanitizer
  import opened Fallback

  /** The commentary shown: accepted service lines, else the fallback lines. */
  method GenerateCommentary(data: CommentaryInput, reply: Option<string>) returns (lines: seq<string>)
    ensures |lines| <= 4
    ensures Sanitise(reply).Some? ==>
      && lines == Sanitise(reply).value
      && 3 <= |lines|
      && forall i :: 0 <= i < |lines| ==> Utf16Length(lines[i]) > 15 && IsTrimmed(lines[i])
    ensures Sanitise(reply).None? ==>
      |lines| == |FallbackBlurbs(data)|
      && forall i :: 0 <= i < |lines| ==> lines[i] == Render(FallbackBlurbs(data)[i])
  {
    var llm := Sanitise(reply);
    if llm.Some? {
      return llm.value;
    }
    var blurbs := GenerateFallback(data);
    lines := RenderAll(blurbs);
  }

  /** Without an answer from the service, the fallback is rendered. */
  lemma NoReplyFallsBack(data: CommentaryInput, content: string)
    ensures Sanitise(None).None?
    ensures Sanitise(Some("")).None?
    ensures content != "" && |UsableLines(Clean(content))| < 3 ==> Sanitise(Some(content)).None?
  {
    if content != "" {
      ThreeAndFiveLines(content);
    }
  }

  /** An answer with at least three usable lines is shown, cut to four. */
  lemma UsableReplyShown(content: string)
    requires content != "" && |UsableLines(Clean(content))| >= 3
    ensures Sanitise(Some(content)) == Some(Take(UsableLines(Clean(content)), 4))
  {
    AcceptanceGate(content);
  }
}
