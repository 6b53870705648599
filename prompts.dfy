/** The instruction prompt that wraps a transcript for the language model
    (src/yt_transcript/prompts.py). The prompt is a single interpolation:
    a fixed opening tag, the transcript verbatim, and a fixed block of
    instructions that starts with the closing tag. */
module Prompts {

  import opened Options

  /** Everything before the transcript: the opening tag and its line break. */
  const OpenTag: string := "<Transcript>\n"

  /** The line break and closing tag that immediately follow the transcript. */
  const CloseTag: string := "\n</Transcript>\n"

  /** The instruction lines, in the order they appear after the closing tag. */
  const NoteLine: string := "Transcription note: this automated transcript might not be 100% correct, you can correct it where it makes sense."
  const ArticleLine: string := "Can you provide a comprehensive article/summary of the given text? The article should cover all the key points and main ideas presented in the original text, while also condensing the information into a concise and easy-to-understand format. Please ensure that the summary includes relevant details and examples that support the main ideas, while avoiding any unnecessary information or repetition. The length of the summary should be appropriate for the length and complexity of the original text, providing a clear and accurate overview without omitting any important information."
  const FormatLine: string := "Format it as an personal article (as it were written by the author), take inspiration from the transcript. If it makes sense, format it as a \"story\" to be captivating (dont call it a story tho). Use bold and italics where it makes sense."
  const LengthLine: string := "Make it VERY long to make sure EVERYTHING is covered. You can skip irrelevant stuff (like sponsor or repetative parts)"
  const TldrLine: string := "At the end add a \"TLDR\" part (objective on what the video was about, must naturally integrate the key parts which makes this video interesting - do NOT use markdown lists, DO **enbolden** keywords, use a markdown section)."

  /** Everything after the transcript. It does not mention the transcript,
      so it is the same for every call. */
  const Suffix: string :=
    CloseTag + NoteLine + "\n\n" + ArticleLine + "\n" + FormatLine + "\n"
    + LengthLine + "\n\n" + TldrLine

  /** The number of characters the template adds around the transcript. */
  const Overhead: nat := |OpenTag| + |Suffix|

  /** transcript_prompt: the prompt for one transcript. */
  function TranscriptPrompt(transcript: string): (p: string)
    ensures |p| == |transcript| + Overhead
    ensures p[..|OpenTag|] == OpenTag
    ensures p[|OpenTag|..|OpenTag| + |transcript|] == transcript
    ensures p[|OpenTag| + |transcript|..] == Suffix
  {
    OpenTag + transcript + Suffix
  }

  /** The inverse of the template: the transcript a prompt was built from,
      or None when the text does not have the template's shape. */
  function TranscriptOf(p: string): (r: Option<string>)
    ensures r.Some? ==> |OpenTag| + |Suffix| <= |p|
    ensures r.Some? ==> |r.value| == |p| - Overhead
  {
    if |OpenTag| + |Suffix| <= |p| && p[..|OpenTag|] == OpenTag && p[|p| - |Suffix|..] == Suffix
    then Some(p[|OpenTag|..|p| - |Suffix|])
    else None
  }

  /** The template adds exactly this many characters around the transcript. */
  lemma OverheadValue()
    ensures |OpenTag| == 13 && |Suffix| == 1293 && Overhead == 1306
  {
  }

  /** The prompt is the opening tag followed at once by the transcript, verbatim. */
  lemma {:induction false} PromptStartsWithTranscript(transcript: string)
    ensures OpenTag + transcript <= TranscriptPrompt(transcript)
  {
    var p := TranscriptPrompt(transcript);
    assert p[..|OpenTag| + |transcript|] == OpenTag + transcript by {
      assert p == (OpenTag + transcript) + Suffix;
    }
  }

  /** Right after the transcript comes the closing tag on a line of its own. */
  lemma {:induction false} ClosingTagFollowsTranscript(transcript: string)
    ensures var k := |OpenTag| + |transcript|;
      TranscriptPrompt(transcript)[k..k + |CloseTag|] == CloseTag
  {
    var rest := Suffix[|CloseTag|..];
    assert Suffix == CloseTag + rest;
    HeadOfConcat(OpenTag + transcript, CloseTag, rest);
  }

  /** Whatever transcript is given, the text after it is the same. */
  lemma {:induction false} SuffixIndependentOfTranscript(t1: string, t2: string)
    ensures TranscriptPrompt(t1)[|OpenTag| + |t1|..] == TranscriptPrompt(t2)[|OpenTag| + |t2|..]
  {
  }

  /** The prompt ends with the instruction to add a TLDR section. */
  lemma {:induction false} PromptEndsWithTldr(transcript: string)
    ensures var p := TranscriptPrompt(transcript);
      |TldrLine| <= |p| && p[|p| - |TldrLine|..] == TldrLine
  {
    var rest := CloseTag + NoteLine + "\n\n" + ArticleLine + "\n" + FormatLine + "\n"
      + LengthLine + "\n\n";
    assert Suffix == rest + TldrLine;
    TailOfConcat(OpenTag + transcript + rest, TldrLine);
  }

  /** In a + b + c, b is found right after a. */
  lemma HeadOfConcat(a: string, b: string, c: string)
    ensures (a + (b + c))[|a|..|a| + |b|] == b
  {
  }

  /** A text that starts with a and ends with c, without overlap, is a,
      its middle and c. */
  lemma Reassemble(p: string, a: string, c: string)
    requires |a| + |c| <= |p| && p[..|a|] == a && p[|p| - |c|..] == c
    ensures a + p[|a|..|p| - |c|] + c == p
  {
    assert p == p[..|a|] + p[|a|..|p| - |c|] + p[|p| - |c|..];
  }

  /** a + b ends with b. */
  lemma TailOfConcat(a: string, b: string)
    ensures (a + b)[|a + b| - |b|..] == b
  {
  }

  /** Reading the transcript back out of its prompt gives it unchanged. */
  lemma {:induction false} TranscriptOfPrompt(transcript: string)
    ensures TranscriptOf(TranscriptPrompt(transcript)) == Some(transcript)
  {
    var p := TranscriptPrompt(transcript);
    assert p[|p| - |Suffix|..] == Suffix;
  }

  /** Every text TranscriptOf accepts is the prompt of what it returns. */
  lemma {:induction false} PromptOfTranscript(p: string)
    requires TranscriptOf(p).Some?
    ensures TranscriptPrompt(TranscriptOf(p).value) == p
  {
    Reassemble(p, OpenTag, Suffix);
  }

  /** Distinct transcripts give distinct prompts, whatever they contain
      (a transcript holding the closing tag included). */
  lemma {:induction false} PromptInjective(t1: string, t2: string)
    requires TranscriptPrompt(t1) == TranscriptPrompt(t2)
    ensures t1 == t2
  {
    TranscriptOfPrompt(t1);
    TranscriptOfPrompt(t2);
  }
}
