# Resume generator: reply normaliser and error routing

The service has one POST endpoint, `/generate-resume`. It serialises the
request's `user_info` and renders a prompt. It sends the prompt to a
generative model, cleans the model's reply, parses it as JSON and returns the
parsed value. The only logic of the repository's own is the cleaning
expression on main.py:153:

    response.text.strip("`").lstrip("json").strip().strip("`")

This project models that expression exactly, and it models the handler's
try/except routing around it (main.py:136-162).

- `pystr.dfy` (module `PyStr`) gives Python 3's `str.strip`, `str.lstrip` and
  `str.rstrip`. The argument of each is a `CharSet`: either the set of
  characters of the argument string, or `Spaces` for the bare call.
  - The bare call removes the characters `str.isspace()` accepts (CPython's
    whitespace table, in `IsSpace`).
  - `Strip` finds the left cut by a left-to-right scan, as CPython does. It
    finds the right cut by a right-to-left scan over the whole string and
    clamps it to the left cut. CPython stops that scan at the left cut
    instead; the two give the same result.
- `normalize.dfy` (module `Normalizer`) composes the four stages in the
  order of line 153. It proves what each stage leaves, which texts pass
  through unchanged, and the worked examples.
- `handler.dfy` (module `Handler`) models the request pipeline. The four
  foreign calls are parameters: `json.dumps`, the prompt template's `format`,
  the model's `generate_content(...).text` and `json.loads`. Each either
  returns a value or raises an exception.
  - The stages run in order, and each runs only if the previous one returned.
  - The outer `except Exception` turns every exception into a 500 whose
    detail is `str(e)`.

Some consequences of the code that the lemmas make explicit:

- The argument of `lstrip("json")` is the character set {j, s, o, n}, not the
  prefix `json`. A reply `son{}` therefore becomes `{}`, and the bare JSON
  text `null` becomes `ull`. Fenced as a json code block, `null` survives,
  because the newline after the tag stops the `lstrip`.
- The normaliser is not idempotent: "`  j" becomes `j`, and `j` becomes the
  empty string.
- Some error details are not what one might expect:
  - A `json.dumps` failure (line 139) is raised outside the inner try. Its
    detail therefore carries no "Prompt formatting failed" prefix.
  - A generation failure carries no prefix of its own.
  - The HTTPExceptions raised by the inner handlers are caught again by the
    outer `except Exception` and re-raised with `detail=str(e)`. Starlette
    renders `str` of an HTTPException as `"<status>: <detail>"`, so the
    client sees `500: Prompt formatting failed: ...` and
    `500: Failed to parse JSON: ...`.

## Model

| member | source | states |
|---|---|---|
| PyStr.ScanRight | main.py:153 | from index i, returns the first index whose character is outside the set, or the length; every character skipped is in the set |
| PyStr.ScanLeft | main.py:153 | from index j, returns the least index n such that every character of s[n..j] is in the set; the character just before n, if any, is outside it |
| PyStr.LStrip | main.py:153 | s.lstrip(cs) is a suffix of s, so the right end is untouched; every removed character is in cs; the result is empty or starts outside cs |
| PyStr.RStrip | main.py:153 | s.rstrip(cs) is a prefix of s; every removed character is in cs; the result is empty or ends outside cs |
| PyStr.Strip | main.py:153 | s.strip(cs) is no longer than s, and it is empty or neither begins nor ends with a character of cs |
| PyStr.StripCuts | main.py:153 | s.strip(cs) is s[i..j] for a cut where everything before i and from j on is in cs |
| PyStr.LeadLenUnique | main.py:153 | the length lstrip removes is the only prefix length of cs characters that ends at a non-member or at the end |
| PyStr.KeepLenUnique | main.py:153 | the length rstrip keeps is unique in the mirror sense |
| PyStr.LStripUnique | main.py:153 | any prefix of cs characters that ends at a non-member, or at the end, is exactly what lstrip removes |
| PyStr.RStripUnique | main.py:153 | any suffix of cs characters that starts after a non-member, or at the start, is exactly what rstrip removes |
| PyStr.StripUnique | main.py:153 | any cut meeting the strip conditions is the one strip makes |
| PyStr.StripEitherOrder | main.py:153 | strip equals rstrip followed by lstrip |
| PyStr.StripOtherOrder | main.py:153 | strip equals lstrip followed by rstrip |
| PyStr.KeepLenOfSuffix | main.py:153 | removing up to the rstrip cut from the left leaves that cut where it was |
| PyStr.LStripKeepsAll | main.py:153 | if lstrip removes nothing, the first character is outside cs and both end characters are kept |
| PyStr.StripKeepsAll | main.py:153 | if strip removes nothing, both end characters are outside cs and are kept |
| PyStr.SliceOfSlice | main.py:153 | a contiguous slice of a contiguous slice of s is a contiguous slice of s |
| PyStr.StripsAreSlices | main.py:153 | lstrip, rstrip and strip each return a contiguous slice of their input |
| PyStr.StripFixes | main.py:153 | a string that begins and ends outside cs comes back unchanged from all three methods |
| Normalizer.Normalize | main.py:153 | the cleaned reply is a contiguous slice of the raw reply and never begins or ends with a backtick |
| Normalizer.StagesAreSlices | main.py:153 | the text after each of the four stages is a contiguous slice of the raw reply |
| Normalizer.FenceStage | main.py:153 | after the first strip("`") the text has no backtick at either end and is the raw reply between its cuts, with only backticks cut away |
| Normalizer.TagStage | main.py:153 | after lstrip("json") the text does not begin with j, s, o or n; only such letters were cut from the left; its right end is exactly the one stage 1 left, and that end is no backtick |
| Normalizer.SettledIsFixed | main.py:153 | a text that starts outside backtick, {j,s,o,n} and whitespace and ends outside backtick and whitespace is returned unchanged |
| Normalizer.LengthKeptIsSettled | main.py:153 | a text the normaliser does not shorten meets those end conditions |
| Normalizer.KeptThroughStages | main.py:153 | if the four stages keep the length, each stage's end condition holds of the original text |
| Normalizer.NormalizeFixedPoint | main.py:153 | the normaliser leaves a text unchanged exactly when it meets those end conditions |
| Normalizer.BracedReplyUnchanged | main.py:153 | a reply from '{' to '}' reaches json.loads unchanged |
| Normalizer.FencedStage1 | main.py:153 | the first strip("`") removes exactly the backtick fences around text that does not start or end with a backtick |
| Normalizer.FencedStage2 | main.py:153 | lstrip("json") removes exactly a leading run of the letters j, s, o, n |
| Normalizer.FencedStage3 | main.py:153 | the bare strip() removes exactly the whitespace around the body |
| Normalizer.FencedEnds | main.py:153 | the characters at the cuts of a fenced reply are the fence's, the tag's, the padding's and the body's |
| Normalizer.FencedReply | main.py:153 | any backtick fence, tag of the letters j, s, o, n and whitespace padding around a body is removed, leaving the body, when the body's ends are neither backtick nor whitespace and the body does not begin with j, s, o or n unless padding separates it from the tag |
| Normalizer.FencedJsonReply | main.py:153 | a json code block with a newline on each side of a body whose ends are neither backtick nor whitespace normalises to the body, whatever letter the body begins with |
| Normalizer.WorkedExample | main.py:153-156 | "```json\n{\"name\":\"A\"}\n```" is handed to json.loads as {"name":"A"} |
| Normalizer.TagIsACharacterSet | main.py:153 | lstrip("json") treats its argument as a set: "son{}" becomes "{}" |
| Normalizer.TagLetterFirstIsCut | main.py:153 | a reply beginning with j, s, o or n never reaches json.loads unchanged |
| Normalizer.NullLosesItsN | main.py:153 | the JSON text null is cleaned to ull |
| Normalizer.FencedNullIntact | main.py:153 | fenced as a json code block, null reaches json.loads as null: the newline after the tag stops lstrip("json") |
| Normalizer.NullTagStage | main.py:153 | on null, the first strip changes nothing and lstrip("json") removes the n |
| Normalizer.NotIdempotent | main.py:153 | "`  j" is cleaned to "j", and "j" is cleaned to "" |
| Handler.Digit | main.py:162 | the character of a decimal digit |
| Handler.Decimal | main.py:162 | str of a non-negative int is a non-empty string of decimal digits without a leading zero |
| Handler.DecimalRoundTrip | main.py:162 | reading the digits of str(n) back gives n |
| Handler.Decimal500 | main.py:162 | the status code 500 is rendered "500" |
| Handler.Str500 | main.py:162 | str of HTTPException(500, d) is "500: " followed by d |
| Handler.GenerateResume | main.py:136-162 | every failure is a 500; the stages entered are a prefix of serialise, render, generate, parse; a value is returned only after all four ran |
| Handler.SerializeFailure | main.py:138-162 | a json.dumps failure is a 500 with the exception's own message as detail, and no later stage runs |
| Handler.RenderFailure | main.py:141-162 | a prompt-formatting failure is a 500 with detail "500: Prompt formatting failed: " + str(e); generation is never reached, and the outcome does not depend on the model or the parser |
| Handler.GenerateFailure | main.py:151-162 | a generation failure is a 500 with detail str(e); the outcome does not depend on the parser |
| Handler.ParseFailure | main.py:155-162 | a JSONDecodeError on the cleaned reply is a 500 with detail "500: Failed to parse JSON: " + message, with no value returned |
| Handler.ParseOtherFailure | main.py:155-162 | any other exception from json.loads is a 500 with its own message |
| Handler.ReturnedIffParsed | main.py:152-157 | once the model has replied, the handler returns v exactly when json.loads of the cleaned reply returns v |
| Handler.ReturnedOnlyOnSuccess | main.py:138-162 | a returned value means serialisation, rendering and generation all succeeded, and it is json.loads' value on the cleaned reply |
| Handler.PrefixedDetailsDiffer | main.py:149-159 | the details of a prompt-formatting failure and of a parse failure are never equal |
| Handler.JaneDoe | main.py:136-162 | a model stubbed to return the fenced Jane Doe object leads to that object's parsed value being returned |

The definitions that compute the behaviour, and carry no contract of their
own, are characterised by the lemmas above:

- `PyStr.IsSpace` (main.py:153) is the character set of the bare `strip()`.
- `Normalizer.FenceStripped`, `Normalizer.TagStripped` and
  `Normalizer.SpaceStripped` (main.py:153) are the first three stages.
- `Handler.Pipeline` (main.py:138-159) is the body of the outer try.
- `Handler.RenderStep` (main.py:141-149) is the inner try around prompt
  formatting.
- `Handler.ParseStep` (main.py:155-159) is the inner try around `json.loads`.
- `Handler.Str` is `str(e)` as used on main.py:149, 159 and 162.
- `Normalizer.NormalizeThrough`, `Normalizer.FencePieces`,
  `Normalizer.LiteralPieces`, `Normalizer.NullFencePieces`,
  and `Handler.StagePrefixes` are proof helpers:
  identities about the stages or about string and sequence literals.

## Left out

- The FastAPI application, the CORS middleware and the `GET /` route (main.py:15-24, 132-134) are framework configuration with no logic of their own.
- The request body's validation by pydantic is not modelled: a malformed body is refused before the handler runs. `user_info` is an opaque type parameter.
- The Gemini client and its generation settings (main.py:27-30) are not modelled. The call on line 152, together with reading `.text`, is the `generate` parameter.
- `json.dumps` and `json.loads` (main.py:139, 156) are foreign library calls and become parameters. JSON values are an opaque type parameter, and no JSON parser is written.
- The prompt texts and the LangChain template (main.py:38-130, 142-146) are a foreign template engine over fixed text. Rendering is the `format` parameter over the serialised `user_info` and the job description.
- The diagnostic `print` on main.py:147 is I/O and is left out. It sits inside the inner try, so a failure there would be reported as a prompt-formatting failure; the model does not include that case.
- `load_dotenv` and the uvicorn start-up (main.py:12, 166-168) are environment handling and process start-up.
- Exceptions that do not derive from `Exception` are not modelled, because the outer handler does not catch them. Examples are task cancellation and `KeyboardInterrupt`.
- Starlette's `HTTPException.__str__` is not part of this model. `Handler.Str` assumes its `"<status>: <detail>"` form.
- The encoding of the returned value and of the `{"detail": ...}` error body is done by the framework, outside the handler.
- Characters are Dafny `char`s, that is, Unicode scalar values. Python strings can also hold lone surrogates; none of the strip sets contains one, so they behave as any other character.
