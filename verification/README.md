# ResuMatch suggestion and matching core, in Dafny

ResuMatch compares a resume with a job description. It scores the overlap and lists
the industry keywords the resume matches and misses. It also asks a language model
for improvement suggestions, organised in three sections: "✨ STRENGTHS",
"🔍 IMPROVEMENTS" and "💡 PRO TIP". This project models the deterministic parts of
that pipeline as pure Dafny functions over strings and sequences, and proves what
they promise:

- `Matcher` — `preprocess_text` (lower-casing, digit and punctuation removal,
  stopword filtering) and the matched/missing keyword partition of `calculate_match`.
- `QualityGate` — `validate_response_quality`, the acceptance test for a generated
  suggestion.
- `OpenAIClients` — the retry loop of `get_openai_response`, with its temperature
  increases and backoff waits. It also covers the three-stage sequencing of
  `get_enhanced_suggestions`. Each chat-completion call is an entry of a script
  `nat -> CallOutcome`.
- `HuggingFace` — everything in the Hugging Face client except the HTTP call:
  - the request headers;
  - text extraction from the decoded JSON, and the 100-character acceptance rule;
  - the re-wrapping of accepted text into the three-section layout;
  - the keyword, industry and seniority detection of the template fallback;
  - the models × attempts loop of `get_ai_response`, where the HTTP result of the
    n-th query is a parameter.
- `SuggestionParser` — the bullet/number line parser of
  `get_resume_improvement_suggestions`.
- `Renderer` — `formatSuggestions` of the browser script: a fold over the lines with
  state none / strength / improvement / tip, emitting HTML and a closing suffix.
- `ResumeParser` — the upload-type dispatch of both `extract_resume_text` variants,
  with `os.path.splitext` as it behaves on POSIX systems (`posixpath.splitext`).
- `Strings` — the Python and JavaScript string operations these use: `strip`/`trim`,
  `lower`, `find`, `rfind`, `in`, `split` with and without a separator, `join`, and
  slicing. `Sections` holds the three section markers and the bullet character.
- `Sequences` — generic facts the others use: subsequences, filtering a sequence by a
  predicate, and counting the positions that satisfy one.

Some consequences of the code that the proofs make explicit:

- `get_enhanced_suggestions` never sends its third, simple prompt. Every reply
  `get_openai_response` returns already has at least 300 stripped characters, so
  the second stage's "at least 300" test always passes (`EnhancedStage`).
- The industry keywords "AI", "UI", "UX", "machine learning" and
  "project management" can never be reported as matched or missing. Preprocessed
  tokens are lower-case and contain no spaces (`UnreachableKeywordsNeverListed`).
- The upload dispatch refuses a hidden-file name such as ".pdf", because `splitext`
  gives it no extension (`HiddenFileRefused`). It accepts "cv.DOCX" (`DispatchIgnoresCase`).

The fixed prose of the Hugging Face templates and the HTML markup of the renderer are
parameters of the functions that produce them (`Wording`, `Markup`). The constants
`HuggingFace.SourceWording` and `Renderer.SourceMarkup` hold the exact text of
`backend/utils/huggingface_client.py` lines 148-164 and 229-246 and of
`frontend/script.js` lines 137-160. The contracts hold for every wording, so they
hold for that one.

## Model

| member | source | states |
|---|---|---|
| `Strings.FindChar` | backend/utils/openai_client.py:43 | `find` gives the first position of the character, with no earlier occurrence; -1 exactly when the character does not occur |
| `Strings.BeforeExcludesSep` | backend/utils/openai_clients.py:135 | the piece before the first separator (`split(sep)[0]`) contains no occurrence of the separator |
| `Strings.SplitOnJoin` | frontend/script.js:131 | splitting at '\n' loses nothing: joining the pieces with '\n' gives back the text |
| `Strings.WordsOfJoin` | backend/utils/matcher.py:29-31 | tokens joined by single spaces split back into exactly the same tokens |
| `Strings.Strip` | backend/utils/openai_clients.py:65 | the stripped text has no whitespace at either end and is never longer than the text |
| `Strings.StripDropsOuterSpace` | backend/utils/openai_clients.py:65 | stripping removes only the whitespace at both ends: the result is the slice of the text after its leading whitespace, and only whitespace follows it |
| `Strings.Lower` | backend/utils/matcher.py:26 | lower-casing keeps the length and maps each character on its own |
| `Strings.Before` | backend/utils/openai_clients.py:135 | `split(sep)[0]` is a prefix of the text that ends where the first occurrence of the separator starts, with no earlier occurrence; the whole text when the separator does not occur |
| `Strings.Between` | backend/utils/openai_clients.py:133 | `split(sep)[1]` is the text that starts right after the first occurrence of the separator and runs up to its next occurrence, or to the end of the text when there is none; no occurrence of the separator, overlapping ones included, starts inside it, and it contains none |
| `Sequences.CountTrue` | backend/utils/openai_clients.py:172 | the number of `True` entries is the number of positions holding `True`; at most the length, and zero exactly when no entry is `True` |
| `Strings.CountChar` | backend/utils/openai_clients.py:152 | `count` is the number of positions holding the character; at most the length, and zero exactly when the character does not occur |
| `Strings.SplitOn` | frontend/script.js:131 | `split('\n')` gives at least one piece, and no piece contains the separator |
| `Strings.Words` | backend/utils/matcher.py:47 | every token of `split()` is non-empty and holds no whitespace |
| `Strings.WordsCoverText` | backend/utils/matcher.py:47 | no character is lost or added: the tokens of `split()`, concatenated, are the non-whitespace characters of the text in order |
| `Strings.WordsCount` | backend/utils/matcher.py:47 | there is one token for each position holding a non-whitespace character at the start of the text or right after whitespace: no run of non-whitespace is dropped or cut in two |
| `Strings.WordsSplitAtSpace` | backend/utils/matcher.py:47 | splitting a text at a point followed by whitespace gives the tokens of the first part followed by those of the second |
| `Strings.JoinSingleSpaced` | backend/utils/matcher.py:31 | tokens joined by single spaces give a single-spaced text that starts with the first token |
| `Strings.StripIdempotent` | backend/utils/huggingface_client.py:137 | stripping an already stripped text changes nothing |
| `Matcher.PunctuationRanges` | backend/utils/matcher.py:20 | a character is in `string.punctuation` if and only if it lies in one of the four ASCII punctuation ranges |
| `Matcher.CleanText` | backend/utils/matcher.py:26-28 | the result is the lower-cased text with its digits and punctuation removed: no character left is an upper-case letter, a digit or punctuation; its characters are a subsequence of the lower-cased text; and there is one for each position of the text whose lower-cased character is none of those, so every other character survives, lower-cased and in order |
| `Matcher.CleanTextOfClean` | backend/utils/matcher.py:26-28 | a text with no upper-case, digit or punctuation character passes the cleaning unchanged |
| `Matcher.FilterTokens` | backend/utils/matcher.py:30 | the kept tokens are a subsequence of the tokens; a token is kept exactly when it is neither a stopword nor a lone punctuation mark; there is one kept token for each qualifying position, so repeated tokens keep every copy; all tokens are kept when every token qualifies |
| `Matcher.PreprocessText` | backend/utils/matcher.py:22-31 | the output has no upper-case, digit or punctuation character; its whitespace tokens are exactly the kept tokens of the cleaned text, in order; none of them is a stopword; the output is single-spaced: no whitespace at either end, no whitespace but spaces, never two spaces in a row |
| `Matcher.PreprocessIdempotent` | backend/utils/matcher.py:22-31 | preprocessing a preprocessed text gives the same text |
| `Matcher.PartitionKeywords` | backend/utils/matcher.py:47-51 | matched and missing are disjoint and together are the job tokens that are industry keywords; every matched keyword is a resume token and no missing one is |
| `Matcher.UnreachableKeywordsNeverListed` | backend/utils/matcher.py:10-16 | "AI", "UI", "UX", "machine learning" and "project management" are never matched or missing, since preprocessed tokens are lower-case and space-free |
| `Matcher.NoJobKeywordsBothEmpty` | backend/utils/matcher.py:47-51 | a job text with no industry-keyword token gives two empty lists |
| `QualityGate.CountContained` | backend/utils/openai_clients.py:165-172 | the generic-phrase count is the number of positions in the phrase list whose phrase occurs in the response case-insensitively; hence at most the number of phrases, and zero exactly when none occurs |
| `QualityGate.ValidateResponseQuality` | backend/utils/openai_clients.py:117-122 | an accepted response has at least 300 characters once stripped |
| `QualityGate.QualityGateSound` | backend/utils/openai_clients.py:117-178 | acceptance requires: stripped length at least 300; all three markers; when the improvements marker follows the first strengths marker, strengths at least 100, improvements (cut at the pro tip) at least 200 with at least four bullets; pro tip at least 50; at most two generic phrases |
| `QualityGate.QualityGateComplete` | backend/utils/openai_clients.py:117-178 | the converse: a response meeting all of those conditions is accepted |
| `OpenAIClients.FinalError` | backend/utils/openai_clients.py:80-112 | the last attempt raises the rate-limit error exactly after a rate limit, the API error exactly after an API error, the quality failure (in the generic handler) exactly after a rejected reply, and the generic failure otherwise |
| `OpenAIClients.Backoff` | backend/utils/openai_clients.py:88-110 | a handler waits only after a rate limit, an API error or another error: 2·2^k s, 3 s and 2 s; a quality failure retries without waiting |
| `OpenAIClients.NextTemperature` | backend/utils/openai_clients.py:83 | only a quality failure changes the temperature: it rises by 0.1 below the 0.9 cap, and never ends above the cap; a temperature at or below the cap stays between itself and the cap |
| `OpenAIClients.RetryFrom` | backend/utils/openai_clients.py:17-112 | at most one attempt per remaining retry; every attempt but the last failed; the loop returns the call that passed, or raises the error of the last attempt after using the full budget; temperatures stay below the cap or the starting value |
| `OpenAIClients.GetOpenAIResponse` | backend/utils/openai_clients.py:14-115 | at most `max_retries + 1` attempts; a returned text is the stripped reply of the last attempt and passes the quality gate; a failure uses every attempt and raises the error the last attempt's outcome selects (`RetriesExhausted` when no attempt runs); temperature never exceeds 0.9 when it starts at or below it |
| `OpenAIClients.RaisesOnlyWithoutAcceptedReply` | backend/utils/openai_clients.py:76-112 | when the loop raises, no call within the budget passed the gate |
| `OpenAIClients.LoopReturnsIffSomePass` | backend/utils/openai_clients.py:17-86 | the loop returns if and only if some call within the budget passes the gate |
| `OpenAIClients.AcceptedIffSomeGoodReply` | backend/utils/openai_clients.py:65-77 | a response is accepted if and only if some call within the budget answers with a reply whose stripped text passes the gate, and it is the first such reply |
| `OpenAIClients.AttemptRecord` | backend/utils/openai_clients.py:24-110 | attempt j starts at the initial temperature raised once per earlier quality failure (capped at 0.9), sleeps 2 s unless it is the first, and unless it is the last is followed by its handler's wait: 2·2^j s after a rate limit, 3 s after an API error, 2 s after another error |
| `OpenAIClients.RateLimitBackoff` | backend/utils/openai_clients.py:88-94 | a rate limit on attempt j that is not the last is followed by a 2·2^j second wait |
| `OpenAIClients.RunStage` | backend/utils/openai_clients.py:251 | a stage makes at most three calls and only returns text that passes the gate; counting its calls from its own first one, it is accepted if and only if one of the three gets a reply whose stripped text passes the gate; the accepted call is one of the three, its outcome is a reply, the returned text is that reply stripped, and no call before it got a good reply |
| `OpenAIClients.SimpleStage` | backend/utils/openai_clients.py:285-307 | the simple prompt makes at most three calls; it is accepted exactly when its `get_openai_response` call returns, with that reply's text and call index (counted from the first call of the request); otherwise it fails with the one strategic failure |
| `OpenAIClients.ThenSimpleStage` | backend/utils/openai_clients.py:282-303 | falling back to the simple prompt records both stages, adds at most three calls, and its response is the simple stage's, started after the enhanced stage's calls |
| `OpenAIClients.EnhancedStage` | backend/utils/openai_clients.py:256-283 | the enhanced prompt returns only gated text of at least 300 stripped characters, never reaches the simple prompt, and turns a failure into the strategic failure; it is accepted exactly when its `get_openai_response` call is, and then returns that call's text, with the call counted from the start of the request |
| `OpenAIClients.ThenEnhancedStage` | backend/utils/openai_clients.py:256-283 | after a short primary answer, the response is the enhanced stage's, both stages are recorded, and at most three calls are added |
| `OpenAIClients.AfterFirstStage` | backend/utils/openai_clients.py:249-307 | a primary answer of at least 400 stripped characters is returned as is; after a shorter one the enhanced stage runs and its response is returned; a primary failure raises the strategic failure; the simple stage never runs |
| `OpenAIClients.GetEnhancedSuggestions` | backend/utils/openai_clients.py:210-307 | at most six calls and at most two stages, the primary first; any text returned passes the gate with at least 300 stripped characters; every failure is the one strategic failure; a suggestion is returned if and only if the primary stage is accepted and either its text has at least 400 stripped characters or the enhanced stage is accepted; a primary answer with at least 400 stripped characters is returned as is |
| `HuggingFace.GetHeaders` | backend/utils/huggingface_client.py:25-32 | Content-Type and User-Agent are always set; Authorization is set, as "Bearer " and the key, if and only if the key is set and non-empty; no other header |
| `HuggingFace.ReadRecord` | backend/utils/huggingface_client.py:102-110 | a dict yields `generated_text` in preference to `text`, else the empty string; any other value yields the empty string or raises |
| `HuggingFace.ExtractResponseText` | backend/utils/huggingface_client.py:99-110 | a non-empty list is read through its first element, a dict directly, anything else gives the empty string |
| `HuggingFace.ListOfRecordReadsRecord` | backend/utils/huggingface_client.py:101-108 | a dict and a list whose first element is that dict give the same text |
| `HuggingFace.AcceptedText` | backend/utils/huggingface_client.py:97-112 | a text is accepted if and only if the result is truthy and the extracted value is a string of more than 100 stripped characters |
| `HuggingFace.Truthy` | backend/utils/huggingface_client.py:97 | a decoded value is falsy exactly when it is `None`, `False`, `0`, `""`, `[]` or `{}` |
| `HuggingFace.Take` | backend/utils/huggingface_client.py:188 | `xs[:n]` is the prefix of length min(n, len(xs)) |
| `HuggingFace.FirstMentioned` | backend/utils/huggingface_client.py:183-188 | the first n terms of the list that occur in the text, in list order; all occurring terms when fewer than n occur |
| `HuggingFace.Mentioned` | backend/utils/huggingface_client.py:183-186 | the terms occurring in the text, in list order, each occurring and none missed |
| `HuggingFace.ExtractKeywordsFromPrompt` | backend/utils/huggingface_client.py:168-188 | the first eight terms, in list order, of the job list for "job" and of the resume list otherwise, that occur in the lower-cased prompt; all of the occurring terms when fewer than eight occur |
| `HuggingFace.Layout` | backend/utils/huggingface_client.py:148-164 | the section layout holds all three markers |
| `HuggingFace.ProTipTail` | backend/utils/huggingface_client.py:164 | the last 200 characters of a text over 400; characters 100 to 300 of one over 100; otherwise the default sentence |
| `HuggingFace.EnhanceAIResponse` | backend/utils/huggingface_client.py:131-166 | the output always holds the strengths and improvements markers; a stripped text holding both is returned unchanged; otherwise the template also holds the pro-tip marker and the pro-tip tail of the text |
| `HuggingFace.EnhanceStructuredIsFixed` | backend/utils/huggingface_client.py:137-141 | enhancing an already structured reply again changes nothing |
| `HuggingFace.DetectIndustry` | backend/utils/huggingface_client.py:202-210 | one of five industries; healthcare whenever "healthcare" or "medical" occurs; technology exactly when none of the eight words occurs |
| `HuggingFace.DetectLevel` | backend/utils/huggingface_client.py:222-226 | one of three levels; senior whenever "senior", "lead" or "manager" occurs |
| `HuggingFace.RuleFires` | backend/utils/huggingface_client.py:203-210 | a detection rule fires exactly when one of its words occurs |
| `HuggingFace.IndustryFollowsRules` | backend/utils/huggingface_client.py:202-210 | the industry chain equals the first-match reading of the table healthcare, finance, marketing, education, default technology |
| `HuggingFace.LevelFollowsRules` | backend/utils/huggingface_client.py:222-226 | the seniority chain equals the first-match reading of the table senior, junior, default mid-level |
| `HuggingFace.GenerateFallbackResponse` | backend/utils/huggingface_client.py:190-248 | the fallback always holds all three markers, and lists the detected technical terms, comma-joined in `technical_terms` order, when there are any |
| `HuggingFace.PayloadInput` | backend/utils/huggingface_client.py:66 | the payload input is the prompt's prefix of length min(len, 2000) |
| `HuggingFace.Schedule` | backend/utils/huggingface_client.py:82-85 | the query schedule has one entry per model and attempt, each a backup model |
| `HuggingFace.ScheduleBlocks` | backend/utils/huggingface_client.py:82-85 | query m·attempts + a goes to model m: models are tried in list order, each for all its attempts |
| `HuggingFace.FirstAccepted` | backend/utils/huggingface_client.py:85-120 | the first accepted query from n on, every earlier one rejected; none only when all are rejected |
| `HuggingFace.GetAIResponse` | backend/utils/huggingface_client.py:55-129 | never raises; at most 4·`max_retries` queries, in schedule order, each with the prompt cut to 2000; returns the enhancement of the first accepted response, every earlier one rejected, or the template fallback after all queries were rejected; the output always holds both markers |
| `SuggestionParser.NumberedLine` | backend/utils/openai_client.py:41 | a line opening with a digit 1-9 and a dot starts with one of the labels "1." to "9." |
| `SuggestionParser.IsListLine` | backend/utils/openai_client.py:40-41 | a stripped line qualifies if and only if it is non-empty and opens with '-', '•', '*' or a digit 1-9 followed by '.'; two-digit labels such as "10." never qualify |
| `SuggestionParser.ItemText` | backend/utils/openai_client.py:43 | the item is the stripped text after the first space, or the whole stripped line when it has no space |
| `SuggestionParser.Items` | backend/utils/openai_client.py:37-43 | at most one item per line; no items exactly when no line qualifies; every item is the item of a qualifying line |
| `SuggestionParser.ItemsOfOneLine` | backend/utils/openai_client.py:39-43 | a single line yields one item exactly when it qualifies |
| `SuggestionParser.ItemsOfAppend` | backend/utils/openai_client.py:37-43 | the items of two blocks of lines are the first block's items followed by the second's: items keep the order of their lines |
| `SuggestionParser.ParseSuggestions` | backend/utils/openai_client.py:37-49 | never empty: the items of the lines, or the whole text as the one suggestion when no line qualifies |
| `Renderer.Substring` | frontend/script.js:139 | `substring(n)` returns a suffix of the string; `Renderer.SubstringDropsUnits` states which one |
| `Renderer.SubstringDropsUnits` | frontend/script.js:139 | the prefix `substring(n)` drops is the shortest one of at least n UTF-16 code units, or the whole string when it has fewer |
| `Renderer.StrengthTitle` | frontend/script.js:139 | on a strengths header, `substring(2)` drops the one-unit sparkle and the space |
| `Renderer.ImprovementTitle` | frontend/script.js:148 | on an improvements header, `substring(2)` drops only the two-unit magnifier emoji and keeps the space |
| `Renderer.TipTitle` | frontend/script.js:157 | on a pro-tip header, `substring(2)` drops only the two-unit light-bulb emoji |
| `Renderer.LineStep` | frontend/script.js:135-180 | header lines are tested before bullets and switch the state to their section with the header fragment; a bullet emits its trimmed rest as an item; another non-blank line emits itself as an item except before any header |
| `Renderer.BlankLineSilent` | frontend/script.js:170-172 | a blank or whitespace-only line emits nothing and keeps the state |
| `Renderer.Run` | frontend/script.js:135-180 | no line sets `currentList` back to `null`: once a header has opened a section, the state never returns to none |
| `Renderer.FoldAppend` | frontend/script.js:135 | for any per-line step, folding two blocks of lines in turn is folding them together |
| `Renderer.RunOne` | frontend/script.js:135-180 | rendering a single line is that line's step |
| `Renderer.RunAppend` | frontend/script.js:135-180 | rendering two blocks of lines one after the other is rendering them together |
| `Renderer.BlankLineRemovable` | frontend/script.js:170-172 | removing a blank line anywhere does not change the output |
| `Renderer.RunEndsInLastHeader` | frontend/script.js:136-161 | the final state is the section of the last header line, or none when there is no header |
| `Renderer.NothingBeforeHeaders` | frontend/script.js:173-179 | lines that are neither headers nor bullets emit nothing before the first header |
| `Renderer.Suffix` | frontend/script.js:182-186 | nothing is closed when no section is open; otherwise the closing tags end with the section's `</div>` and start by closing the open block: `</ul>` for the strengths and improvements lists, `</div>` for the tip content |
| `Renderer.FormatSuggestions` | frontend/script.js:126-189 | a non-string gives the fixed no-suggestions paragraph; a string gives the fragments of its lines followed by the closing tags of the last header's section |
| `ResumeParser.LastIndex` | backend/utils/resume_parser.py:18 | `rfind` gives the last position of the character, with no later occurrence; -1 exactly when it does not occur |
| `ResumeParser.SplitExt` | backend/utils/resume_parser.py:18 | `splitext` parts concatenate to the name, and the extension is empty or starts with a dot |
| `ResumeParser.SplitExtCharacterised` | backend/utils/resume_parser.py:18 | the extension starts exactly at the last dot of the last path component when something other than a dot precedes it there; otherwise the name is left whole |
| `ResumeParser.Dispatch` | backend/utils/resume_parser.py:17-24 | the PDF extractor is chosen if and only if the extension is ".pdf" in any case, the DOCX extractor if and only if it is ".docx"; anything else is refused; the extractor gets the input unchanged |
| `ResumeParser.ExtractResumeText` | backend/utils/resume_parser.py:17-24 | the upload bytes go to the PDF or DOCX extractor exactly as the file name's extension says; any other name raises |
| `ResumeParser.ExtractResumeTextAtPath` | utils/resume_parser.py:16-23 | the path goes to the PDF or DOCX extractor exactly as its extension says; any other path raises |
| `ResumeParser.DispatchIgnoresCase` | backend/utils/resume_parser.py:18 | names equal up to letter case select the same extractor |
| `ResumeParser.LastExtensionCounts` | backend/utils/resume_parser.py:18 | only the last extension counts: "cv.docx" followed by ".pdf" has the extension ".pdf" |
| `ResumeParser.NoDotInLastComponentRefused` | utils/resume_parser.py:17-23 | a path with no dot in its last component, such as "v1.pdf/resume", is refused |
| `ResumeParser.HiddenFileRefused` | backend/utils/resume_parser.py:18-24 | a name of leading dots and a dot-free word, such as ".pdf", has no extension and is refused |

## Left out

- TF-IDF cosine similarity and the rounding of the score (`backend/utils/matcher.py` lines 41-44 and 64): floating point inside scikit-learn.
- The NLTK tokenizer and stopword corpus. `word_tokenize` is modelled as a split on whitespace runs, and the stopword set is a parameter `stop`.
- The suggestion call at the end of `calculate_match` (lines 53-67). It calls the asynchronous `get_openai_response` without awaiting it, so its "suggestion" is the text of a coroutine object.
- The network calls:
  - the OpenAI SDK calls;
  - the Hugging Face HTTP call `query_huggingface_model` (lines 34-53), including its 20-second wait on status 503;
  - the Gemini client.

  They are replaced by the scripted outcomes (`Script`, `Responder`).
- The system message and prompt texts of both clients. Console output. Environment and dotenv loading: the API key is a parameter of `GetHeaders`.
- `asyncio.sleep` is not executed. Its durations are recorded in each attempt's `delay` and `backoff`. The random jitter of the Hugging Face retries (line 91) is left out; that loop records no delays.
- Floating-point temperatures: temperatures are integer tenths. In floats, 0.7 + 0.1 is 0.7999…, so the values sent before the cap differ from 0.8 in the last bits.
- PDF and DOCX text extraction (PyPDF2, python-docx): the result names the extractor and the value passed to it.
- The web layer (the FastAPI routes and `main.py`), the rest of `frontend/script.js` (DOM, fetch, scrolling, confetti), and `frontend/typewriter.js`.
- `Strings.IsSpace`: whitespace is the six ASCII characters space, tab, line feed, carriage return, vertical tab and form feed. For ASCII text this is exactly JavaScript's `trim()`. Python's `strip()` and `split()` also treat the ASCII separators `\x1c` to `\x1f` as whitespace. Non-ASCII spaces and line separators, such as U+00A0 and U+2028, are whitespace in both languages; U+0085 only in Python, U+FEFF only in JavaScript.
- `Strings.IsDigit`: a digit is '0' to '9'. The pattern `\d+` of `re.sub` in `preprocess_text` (`backend/utils/matcher.py` line 27) also matches every other Unicode decimal digit, such as ARABIC-INDIC DIGIT THREE (U+0663), and removes it.
- `Strings.Lower`: case mapping is ASCII only. Python's `str.lower()` also maps non-ASCII letters. For the extension test this is exact: the only non-ASCII characters that lower-case to ASCII text are KELVIN SIGN (to "k") and LATIN CAPITAL LETTER I WITH DOT ABOVE (to two characters), and neither can produce ".pdf" or ".docx".
- `ResumeParser.SplitExt` models `posixpath.splitext`, which is `os.path.splitext` on POSIX systems. On Windows `os.path` is `ntpath`, whose `splitext` also treats '\\' (and the colon after a drive letter) as a separator, so "a.b\\cv" has no extension there.
- `Renderer.Substring`: a cut through the middle of a surrogate pair drops the whole character. JavaScript would keep the lone low surrogate. The three headers' cuts never fall there.
- JSON numbers are integers in `HuggingFace.Json`: floating-point values are not modelled. A truthy non-string extracted value is rejected. In the source, `.strip()` raises on it instead, and the attempt's handler catches that, which has the same effect on the loop.
- `HuggingFace.ReadRecord`: for a record that is not a dict, the contract states only that the result is the empty string or a raise. Which one follows from the `in` test on a string or list and is stated in the body.
- `HuggingFace.GenerateFallbackResponse`: the contract states the three markers and the comma-joined skill list. It does not state the position of every substituted value in the template.
- `HuggingFace.EnhanceAIResponse`: for the re-wrapped case, the contract states the markers and the pro-tip tail. It does not state where the prompt keywords and the first 400 characters of the reply are placed.
- `HuggingFace.DetectLevel`: the contract states the value set and the priority of "senior". The complete chain, junior included, is stated by `HuggingFace.LevelFollowsRules`.
