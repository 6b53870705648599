# yt2article: a verified model of the pure core

yt2article fetches the captions of a YouTube video, hands them to an OpenAI
chat model to be rewritten as an article, and renders the article as HTML or
PDF. Nearly all of it is glue around external libraries. Three parts compute
something of their own, and this project models them in Dafny and proves
properties of them:

- `VideoId` (`video_id.dfy`) models `extract_video_id`. The function runs
  `re.search` with the pattern `(?:v=|\/)([0-9A-Za-z_-]{11}).*` and returns
  group 1, or raises `ValueError`. `MatchAt(url, i)` says the pattern matches
  at index `i`: either `"v="` followed by eleven alphabet characters, or `"/"`
  followed by eleven alphabet characters. The trailing `.*` can match the
  empty string, so it adds no condition. `Scan` tries start positions from
  left to right, as `re.search` does. `ExtractVideoId` returns the token of
  the first match, or `Err` with the `ValueError` message.
- `Prompts` (`prompts.dfy`) models `transcript_prompt`. It puts a fixed
  opening tag, then the transcript verbatim, then a fixed block of
  instructions that begins with the closing tag. The instruction lines are
  string constants with the same text as the f-string.
- `OpenAIProcessor` (`openai_processor.dfy`) models the data that
  `process_transcript` builds. `JoinWithSpace` and `FullText` model the
  `' '.join` of the entry texts. `RequestFor` and `BuildRequest` model the
  `chat.completions.create` arguments as a `ChatRequest` value: the model
  name plus a system message and a user message. The network call is not
  modelled.

The model follows the code's branches, constants and edge cases, including
these points:

- Entries are joined with a single space between neighbours.
- An empty caption list gives an empty `full_text`. The processor raises no
  error for it.
- The model name `"gpt-3.5-turbo"` is a literal in the code. The code passes no
  `base_url` when it builds the client.
- The core writes no files. The only text it produces is the video
  identifier, the prompt and the request.
- `process_transcript` does not use `transcript_prompt`. Its user message is
  its own inline preamble followed by `full_text`. The two are modelled
  separately for that reason.

Each operation has a partner, and lemmas connect the two:

- The parser is proved against the leftmost-match specification
  (`IsLeftmostMatch`), in both directions.
- The prompt builder has an inverse, `TranscriptOf`. There are round-trip
  lemmas both ways, and injectivity follows from them.
- The join has an offset-based description of where each part lands
  (`Offset`).
- The request builder has an inverse, `TranscriptTextOf`, with round-trip
  lemmas both ways. `WireMessages` renders the messages as the dictionaries
  the client receives, and `RequestOnTheWire` ties that rendering to the
  literal messages list.

The shared `Option` datatype lives in `options.dfy`.

## Model

| member | source | states |
|---|---|---|
| `VideoId.MatchAt` | src/yt_transcript/__main__.py:9 | The pattern matches at i when "v=" or "/" starts there and is followed by 11 alphabet characters. A match at i needs at least 12 characters from i on. |
| `VideoId.Token` | src/yt_transcript/__main__.py:10 | Group 1 of a match at i is 11 alphabet characters. After a "/" it is the next 11 characters; otherwise i holds "v=" and it is the 11 characters after that. |
| `VideoId.Scan` | src/yt_transcript/__main__.py:9 | Searching from index i gives None exactly when no index at or after i matches. When it gives Some(k), k is a match, k >= i, and no index between i and k matches. |
| `VideoId.ExtractVideoId` | src/yt_transcript/__main__.py:6-11 | Fails exactly when the pattern matches at no index, and then carries the ValueError message. A returned identifier has exactly 11 characters, all from [0-9A-Za-z_-]. |
| `VideoId.ExtractFindsLeftmost` | src/yt_transcript/__main__.py:9-10 | If k is the leftmost index where the pattern matches, the parser returns the 11 characters captured at k. |
| `VideoId.ExtractIsLeftmost` | src/yt_transcript/__main__.py:9-10 | A returned identifier is the group captured at the leftmost matching index: it matches there, and no earlier index matches. |
| `VideoId.ExtractIsAnchoredSubstring` | src/yt_transcript/__main__.py:9-10 | A returned identifier is a contiguous substring of the URL that comes right after "/" or right after "v=". |
| `VideoId.MatchAtDependsOnWindow` | src/yt_transcript/__main__.py:9 | Two URLs that are both at least j + 13 long and agree on the 13 characters from index j either both match at j or both do not. |
| `VideoId.TextAfterTokenIgnored` | src/yt_transcript/__main__.py:9 | Characters after the captured identifier never change the result: cut the URL right after the identifier, append any text, and the parser returns the same result. |
| `VideoId.LongRunAfterSlash` | src/yt_transcript/__main__.py:9 | The URL "/" + run, where run is 11 or more alphabet characters, yields the first 11 characters of run. There is no end-of-token boundary. |
| `VideoId.NoMatchWithoutAnchorChar` | src/yt_transcript/__main__.py:9 | No match starts inside a stretch of the URL that holds neither "v" nor "/". |
| `VideoId.SlashWithoutToken` | src/yt_transcript/__main__.py:9 | A "/" is not a match when one of the next eleven characters is outside the alphabet. |
| `VideoId.ShortLinkShape` | src/yt_transcript/__main__.py:9-10 | The URL is scheme + "//" + host + "/" + id. If scheme and host hold no "v" and no "/", the host has a character outside [0-9A-Za-z_-] at an index below 10, and id is 11 alphabet characters, then the parser returns id. |
| `VideoId.WatchPageShape` | src/yt_transcript/__main__.py:9-10 | The URL is scheme + "//" + host + "/" + page + "v=" + id. Suppose scheme, host and page hold no "v" and no "/", and the host has a character outside the alphabet at an index below 10. Suppose also that the page is 1 to 10 characters long and ends in a character outside the alphabet, and id is 11 alphabet characters. Then the parser returns id. |
| `VideoId.WatchPageUrl` | src/yt_transcript/__main__.py:9-10 | "https://www.youtube.com/watch?v=dQw4w9WgXcQ" yields "dQw4w9WgXcQ". |
| `VideoId.ShortLinkUrl` | src/yt_transcript/__main__.py:9-10 | "https://youtu.be/dQw4w9WgXcQ" yields "dQw4w9WgXcQ". |
| `Prompts.TranscriptPrompt` | src/yt_transcript/prompts.py:1-11 | The prompt's length is the transcript's length plus a fixed overhead. It begins with "<Transcript>\n", the transcript comes next verbatim, and the fixed suffix follows. |
| `Prompts.OverheadValue` | src/yt_transcript/prompts.py:2-11 | The opening tag is 13 characters and the suffix is 1293 characters, so every prompt is the transcript's length plus 1306. |
| `Prompts.PromptStartsWithTranscript` | src/yt_transcript/prompts.py:2-3 | The prompt begins with the opening tag followed at once by the transcript. |
| `Prompts.ClosingTagFollowsTranscript` | src/yt_transcript/prompts.py:3-4 | Right after the transcript comes "\n</Transcript>\n". |
| `Prompts.SuffixIndependentOfTranscript` | src/yt_transcript/prompts.py:4-11 | The text after the transcript is the same for every transcript. |
| `Prompts.PromptEndsWithTldr` | src/yt_transcript/prompts.py:11 | The prompt ends with the instruction to add a TLDR section. |
| `Prompts.TranscriptOfPrompt` | src/yt_transcript/prompts.py:1-11 | Reading the transcript back out of its prompt gives it unchanged. |
| `Prompts.PromptOfTranscript` | src/yt_transcript/prompts.py:1-11 | Any text the inverse accepts is exactly the prompt of the transcript it returns. |
| `Prompts.PromptInjective` | src/yt_transcript/prompts.py:1-11 | Distinct transcripts give distinct prompts, even when a transcript contains the closing tag. |
| `OpenAIProcessor.Texts` | src/yt_transcript/openai_processor.py:24 | The entry texts in list order, one per entry. |
| `OpenAIProcessor.JoinWithSpace` | src/yt_transcript/openai_processor.py:24 | The `' '.join` of n >= 1 parts is as long as the parts together plus n - 1 separator characters. Where each part lands is stated by `JoinPlacesParts`, and the list order by `JoinAppend`. |
| `OpenAIProcessor.OffsetStep` | src/yt_transcript/openai_processor.py:24 | A part's offset in the join is the first part's length, plus one separator, plus its offset in the join of the remaining parts. |
| `OpenAIProcessor.JoinPlacesParts` | src/yt_transcript/openai_processor.py:24 | Every part appears unchanged at its offset, which counts the earlier parts' lengths plus one space each. Every part except the last is followed by a single space. |
| `OpenAIProcessor.JoinAppend` | src/yt_transcript/openai_processor.py:24 | For a non-empty list, appending a part t adds one space and then t at the end of the join, so parts appear in list order. (For the empty list the join of [t] is t alone.) |
| `OpenAIProcessor.FullTextSmallCases` | src/yt_transcript/openai_processor.py:24 | No entries give the empty string, without error. One entry gives exactly its text. |
| `OpenAIProcessor.FullText` | src/yt_transcript/openai_processor.py:24 | No entries give the empty full_text. For n >= 1 entries, full_text is as long as their texts together plus n - 1 separators. |
| `OpenAIProcessor.RoleName` | src/yt_transcript/openai_processor.py:29-30 | The role names on the wire are "system" and "user", one for each role. |
| `OpenAIProcessor.WireMessage` | src/yt_transcript/openai_processor.py:29-30 | A message is sent as a dictionary with exactly the keys "role" and "content", holding the role's wire name and the message text. |
| `OpenAIProcessor.WireMessages` | src/yt_transcript/openai_processor.py:28-31 | The messages list sent holds one dictionary per message, in the same order. |
| `OpenAIProcessor.WireMessageInjective` | src/yt_transcript/openai_processor.py:29-30 | Distinct messages give distinct dictionaries, so the dictionary form loses nothing. |
| `OpenAIProcessor.RequestFor` | src/yt_transcript/openai_processor.py:26-31 | The request uses the fixed model "gpt-3.5-turbo" and holds exactly two messages: the fixed system instruction first, then the user message. The user message is the fixed preamble followed by the transcript text. |
| `OpenAIProcessor.BuildRequest` | src/yt_transcript/openai_processor.py:24-31 | The request built for the caption entries has the processor's shape and carries their full_text. |
| `OpenAIProcessor.TranscriptTextOfRequest` | src/yt_transcript/openai_processor.py:26-31 | Reading the transcript text back out of its request gives it unchanged. |
| `OpenAIProcessor.RequestForTranscriptText` | src/yt_transcript/openai_processor.py:26-31 | Any request of the processor's shape is the request built for the text it carries. |
| `OpenAIProcessor.RequestForInjective` | src/yt_transcript/openai_processor.py:26-31 | Different transcript texts never give the same request. |
| `OpenAIProcessor.RequestOnTheWire` | src/yt_transcript/openai_processor.py:28-31 | The messages the request sends are exactly the literal list: a "system" dictionary with the fixed instruction, then a "user" dictionary with the preamble followed by the text. |

## Left out

- `main` in src/yt_transcript/__main__.py:13-28 is left out. It handles argument parsing, printing with `:.2f` float formatting, and a catch-all exception handler, which is all I/O.
- The OpenAI client, `load_dotenv`, the environment read of the API key, the network call and reading `response.choices[0].message.content` (src/yt_transcript/openai_processor.py:10-11, 26, 34) are left out. They are I/O and a foreign library. Only the request data is modelled.
- `YouTubeExtractor.extract` is a one-line call into the caption library, so it is left out. The caption entries it returns are modelled as `CaptionEntry` values that are given as input.
- `TranscriptExtractor` is an abstract interface with no behaviour, so it is left out.
- `HTMLRenderer` and `PDFRenderer` are left out. Their output depends on the `markdown` and `weasyprint` libraries, on the current date, and on file writes, and opening the viewer is a platform-dependent subprocess.
- Caption entries are modelled as `CaptionEntry` records whose text is always a string. So two failures of `entry['text']` and `' '.join` (src/yt_transcript/openai_processor.py:24) are not modelled: the `KeyError` for an entry without a `'text'` key, and the `TypeError` for a text that is not a `str`.
- The `start` and `duration` fields of a caption entry are carried as `real` values. The core never computes with them, so floating-point behaviour is not modelled.
- Text is modelled as `seq<char>` of Unicode scalar values, matching Python's `str` indexing by code point. Strings that hold lone surrogates are not modelled.
