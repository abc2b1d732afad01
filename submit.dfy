/** The submission page: a type, a title and a text, the submit button, and
    the quality and proofreading helpers. */
module Submit {
  import opened Js
  import opened Types
  import Api

  datatype SubmitForm = SubmitForm(
    contentType: ContentType,
    title: string,
    content: string,
    submitPending: bool,
    qualityPending: bool,
    proofreadPending: bool)

  /** The form as first shown: a story, empty title and text. */
  const InitialSubmitForm := SubmitForm(StoryType, "", "", false, false, false)

  /** `canSubmit`: both the trimmed title and the trimmed text are non-empty. */
  function CanSubmit(f: SubmitForm): (r: bool)
    ensures r <==> !AllSpace(f.title) && !AllSpace(f.content)
  {
    Trim(f.title) != "" && Trim(f.content) != ""
  }

  /** The submit button is disabled while a submit is pending and whenever
      the title or the text is blank. */
  function SubmitDisabled(f: SubmitForm): (r: bool)
    ensures r <==> AllSpace(f.title) || AllSpace(f.content) || f.submitPending
  {
    !CanSubmit(f) || f.submitPending
  }

  /** The quality and proofread buttons test the untrimmed text: only the
      empty string (or a pending request) disables them. */
  function QualityDisabled(f: SubmitForm): (r: bool)
    ensures r <==> |f.content| == 0 || f.qualityPending
    ensures CanSubmit(f) && !f.qualityPending ==> !r
  {
    f.content == "" || f.qualityPending
  }

  function ProofreadDisabled(f: SubmitForm): (r: bool)
    ensures r <==> |f.content| == 0 || f.proofreadPending
    ensures CanSubmit(f) && !f.proofreadPending ==> !r
  {
    f.content == "" || f.proofreadPending
  }

  /** With a text of only spaces the helpers are enabled but submit is not. */
  lemma SpacesEnableHelpersOnly(f: SubmitForm)
    requires f.content == " " && !f.qualityPending && !f.proofreadPending
    ensures !QualityDisabled(f) && !ProofreadDisabled(f) && SubmitDisabled(f)
  {
    assert IsSpace(f.content[0]);
  }

  /** What the submit mutation sends: the form's type, title and text unchanged. */
  function SubmitArguments(f: SubmitForm): (r: (ContentType, string, string))
    ensures r.0 == f.contentType && r.1 == f.title && r.2 == f.content
  {
    (f.contentType, f.title, f.content)
  }

  /** The proofread mutation's success: the text becomes the corrected text. */
  function AfterProofread(f: SubmitForm, response: AIProofreadResponse): (r: SubmitForm)
    ensures r.content == response.correctedText
    ensures r.title == f.title && r.contentType == f.contentType
  {
    f.(content := response.correctedText)
  }

  lemma {:induction false} AllSpaceIffNoNonSpaces(s: string)
    ensures AllSpace(s) <==> NonSpaces(s) == []
  {
    if s != [] {
      AllSpaceIffNoNonSpaces(s[1..]);
      if IsSpace(s[0]) {
        assert AllSpace(s) <==> AllSpace(s[1..]);
      } else {
        assert !AllSpace(s);
      }
    }
  }

  /** After proofreading, the text is the old one with each run of two or
      more whitespace characters made one space and its ends trimmed; it
      keeps every other character in order, and can be submitted exactly
      when it could before. */
  lemma ProofreadKeepsSubmittable(f: SubmitForm)
    ensures var g := AfterProofread(f, Api.Proofread(f.content));
            g.content == Trim(Interleave(SplitSpaces(f.content), ShrinkRuns(SpaceRuns(f.content))))
            && NoDoubleSpace(g.content) && IsTrimmed(g.content)
            && NonSpaces(g.content) == NonSpaces(f.content)
            && (CanSubmit(g) <==> CanSubmit(f))
  {
    var t := Api.Proofread(f.content).correctedText;
    AllSpaceIffNoNonSpaces(t);
    AllSpaceIffNoNonSpaces(f.content);
  }
}
