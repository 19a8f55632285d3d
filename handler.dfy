/** The error routing of the POST /generate-resume handler (main.py:136-162).

    The handler runs four stages in order: serialise user_info with
    json.dumps, render the prompt template, call the generative model, and
    parse the normalised reply with json.loads. Each stage is a foreign call
    and is a parameter here: it returns a value or raises an exception. An
    outer `except Exception` turns every exception into an HTTP 500 whose
    detail is str(e). */
module Handler {
  import opened PyStr
  import opened Normalizer

  /** The exceptions the handler tells apart. An HttpException is the one it
      raises itself; a JsonDecodeError is what json.loads raises on text that
      is not JSON; any other exception carries only its message. */
  datatype Exception =
    | HttpException(statusCode: nat, detail: string)
    | JsonDecodeError(message: string)
    | OtherError(message: string)

  /** A foreign call either returns or raises. */
  datatype Result<T> = Ok(value: T) | Err(error: Exception)

  /** The stages of one request, in the order the handler runs them. */
  datatype Stage = Serialize | Render | Generate | Parse

  const AllStages: seq<Stage> := [Serialize, Render, Generate, Parse]

  /** Proof helper: the three shorter stage literals are prefixes of
      AllStages. */
  lemma StagePrefixes()
    ensures [Serialize] == AllStages[..1]
    ensures [Serialize, Render] == AllStages[..2]
    ensures [Serialize, Render, Generate] == AllStages[..3]
    ensures AllStages == AllStages[..4]
  {
  }

  /** The request body: an arbitrary user_info mapping and the job text. */
  datatype Request<U> = Request(userInfo: U, jobDescription: string)

  /** The foreign calls the handler makes: json.dumps(user_info, indent=2);
      the prompt template's format with the fixed system prompt, applied to
      the serialised user_info and the job description; the model's
      generate_content(...).text; and json.loads. */
  datatype Collaborators<-U, J> = Collaborators(
    dumps: U -> Result<string>,
    format: (string, string) -> Result<string>,
    generate: string -> Result<string>,
    loads: string -> Result<J>)

  /** What the client receives: the parsed value with status 200, or an
      error status with {"detail": detail}. */
  datatype Response<J> = Returned(body: J) | Failed(statusCode: nat, detail: string)

  /** A response together with the stages the request entered. */
  datatype Outcome<J> = Outcome(response: Response<J>, reached: seq<Stage>)

  /** The result of the outer try block before its except clause. */
  datatype Attempt<J> = Attempt(result: Result<J>, reached: seq<Stage>)

  const FormatPrefix: string := "Prompt formatting failed: "
  const ParsePrefix: string := "Failed to parse JSON: "

  /** The decimal digit of d. */
  function Digit(d: nat): (c: char)
    requires d < 10
    ensures '0' <= c <= '9' && c as int - '0' as int == d
  {
    (d + '0' as int) as char
  }

  /** str(n) for a non-negative int: its decimal digits, without leading
      zeros. */
  function Decimal(n: nat): (s: string)
    ensures 1 <= |s|
    ensures forall k :: 0 <= k < |s| ==> '0' <= s[k] <= '9'
    ensures |s| > 1 ==> s[0] != '0'
    decreases n
  {
    if n < 10 then [Digit(n)] else Decimal(n / 10) + [Digit(n % 10)]
  }

  /** The number a string of decimal digits denotes. */
  function DigitsValue(s: string): nat
    requires forall k :: 0 <= k < |s| ==> '0' <= s[k] <= '9'
  {
    if s == [] then 0
    else DigitsValue(s[..|s| - 1]) * 10 + (s[|s| - 1] as int - '0' as int)
  }

  /** Reading str(n) back gives n. */
  lemma {:induction false} DecimalRoundTrip(n: nat)
    ensures DigitsValue(Decimal(n)) == n
    decreases n
  {
    if n >= 10 {
      var s := Decimal(n);
      assert s[..|s| - 1] == Decimal(n / 10);
      DecimalRoundTrip(n / 10);
    }
  }

  /** The status code the handler raises is rendered "500". */
  lemma Decimal500()
    ensures Decimal(500) == "500"
  {
    assert Decimal(5) == "5";
    assert Decimal(50) == "50";
  }

  /** str of an HTTPException the handler raises with a prefixed detail. */
  lemma Str500(prefix: string, rest: string)
    ensures Str(HttpException(500, prefix + rest)) == "500: " + prefix + rest
  {
    Decimal500();
    assert "500" + ": " + (prefix + rest) == "500: " + prefix + rest;
  }

  /** str(e). Starlette's HTTPException renders as "<status>: <detail>";
      the others render as their message. */
  function Str(e: Exception): string
  {
    match e
    case HttpException(code, detail) => Decimal(code) + ": " + detail
    case JsonDecodeError(message) => message
    case OtherError(message) => message
  }

  /** The inner try of lines 141-149: any exception from rendering the
      prompt is re-raised as HTTPException(500, "Prompt formatting failed:
      " + str(e)). */
  function RenderStep<U, J>(c: Collaborators<U, J>, userJson: string, job: string): Result<string>
  {
    match c.format(userJson, job)
    case Ok(prompt) => Ok(prompt)
    case Err(e) => Err(HttpException(500, FormatPrefix + Str(e)))
  }

  /** The inner try of lines 155-159: a JSONDecodeError from json.loads is
      re-raised as HTTPException(500, "Failed to parse JSON: " + str(e));
      any other exception passes through. */
  function ParseStep<U, J>(c: Collaborators<U, J>, cleaned: string): Result<J>
  {
    match c.loads(cleaned)
    case Ok(v) => Ok(v)
    case Err(e) =>
      if e.JsonDecodeError? then Err(HttpException(500, ParsePrefix + Str(e))) else Err(e)
  }

  /** The outer try block, lines 139-159: the stages in order, each run only
      if the previous one returned. The reply text is normalised as on line
      153 before it is parsed. */
  function Pipeline<U, J>(c: Collaborators<U, J>, req: Request<U>): Attempt<J>
  {
    match c.dumps(req.userInfo)
    case Err(e) => Attempt(Err(e), [Serialize])
    case Ok(userJson) =>
      match RenderStep(c, userJson, req.jobDescription)
      case Err(e) => Attempt(Err(e), [Serialize, Render])
      case Ok(prompt) =>
        match c.generate(prompt)
        case Err(e) => Attempt(Err(e), [Serialize, Render, Generate])
        case Ok(text) => Attempt(ParseStep(c, Normalize(text)), AllStages)
  }

  /** generate_resume: the outer except of lines 161-162 turns every
      exception e into HTTPException(500, str(e)). Every failure is a 500;
      the stages entered are a prefix of the four in order; and a value is
      returned only after all four ran. */
  function GenerateResume<U, J>(c: Collaborators<U, J>, req: Request<U>): (o: Outcome<J>)
    ensures o.response.Failed? ==> o.response.statusCode == 500
    ensures 1 <= |o.reached| <= |AllStages| && o.reached == AllStages[..|o.reached|]
    ensures o.response.Returned? ==> o.reached == AllStages
  {
    StagePrefixes();
    var a := Pipeline(c, req);
    match a.result
    case Ok(v) => Outcome(Returned(v), a.reached)
    case Err(e) => Outcome(Failed(500, Str(e)), a.reached)
  }

  /** A json.dumps failure (line 139, outside the inner try) is a 500 whose
      detail is the exception's own message, with no prefix; nothing after
      serialisation runs. */
  lemma SerializeFailure<U, J>(c: Collaborators<U, J>, req: Request<U>, e: Exception)
    requires c.dumps(req.userInfo) == Err(e)
    ensures GenerateResume(c, req) == Outcome(Failed(500, Str(e)), [Serialize])
  {
  }

  /** A prompt-rendering failure is a 500 whose detail is
      "500: Prompt formatting failed: " + str(e); the model is never called,
      so the outcome is the same whatever generate and loads would do. */
  lemma RenderFailure<U, J>(c: Collaborators<U, J>, req: Request<U>, userJson: string, e: Exception)
    requires c.dumps(req.userInfo) == Ok(userJson)
    requires c.format(userJson, req.jobDescription) == Err(e)
    ensures GenerateResume(c, req)
      == Outcome(Failed(500, "500: " + FormatPrefix + Str(e)), [Serialize, Render])
    ensures Generate !in GenerateResume(c, req).reached
    ensures forall g, l :: GenerateResume(c.(generate := g, loads := l), req) == GenerateResume(c, req)
  {
    Str500(FormatPrefix, Str(e));
  }

  /** A generation failure is a 500 whose detail is str(e), with no prefix
      of its own; the parser is never invoked. */
  lemma GenerateFailure<U, J>(c: Collaborators<U, J>, req: Request<U>, userJson: string, prompt: string, e: Exception)
    requires c.dumps(req.userInfo) == Ok(userJson)
    requires c.format(userJson, req.jobDescription) == Ok(prompt)
    requires c.generate(prompt) == Err(e)
    ensures GenerateResume(c, req) == Outcome(Failed(500, Str(e)), [Serialize, Render, Generate])
    ensures forall l :: GenerateResume(c.(loads := l), req) == GenerateResume(c, req)
  {
  }

  /** json.loads raising JSONDecodeError on the normalised reply is a 500
      whose detail is "500: Failed to parse JSON: " + the decoder's message;
      no parsed value is returned. */
  lemma ParseFailure<U, J>(c: Collaborators<U, J>, req: Request<U>, userJson: string, prompt: string, text: string, message: string)
    requires c.dumps(req.userInfo) == Ok(userJson)
    requires c.format(userJson, req.jobDescription) == Ok(prompt)
    requires c.generate(prompt) == Ok(text)
    requires c.loads(Normalize(text)) == Err(JsonDecodeError(message))
    ensures GenerateResume(c, req) == Outcome(Failed(500, "500: " + ParsePrefix + message), AllStages)
  {
    Str500(ParsePrefix, message);
  }

  /** Any other exception from json.loads passes through the inner except
      and becomes a 500 with its own message. */
  lemma ParseOtherFailure<U, J>(c: Collaborators<U, J>, req: Request<U>, userJson: string, prompt: string, text: string, e: Exception)
    requires c.dumps(req.userInfo) == Ok(userJson)
    requires c.format(userJson, req.jobDescription) == Ok(prompt)
    requires c.generate(prompt) == Ok(text)
    requires c.loads(Normalize(text)) == Err(e) && !e.JsonDecodeError?
    ensures GenerateResume(c, req) == Outcome(Failed(500, Str(e)), AllStages)
  {
  }

  /** Once the model has replied, the handler returns v exactly when
      json.loads of the normalised reply returns v. */
  lemma ReturnedIffParsed<U, J>(c: Collaborators<U, J>, req: Request<U>, userJson: string, prompt: string, text: string, v: J)
    requires c.dumps(req.userInfo) == Ok(userJson)
    requires c.format(userJson, req.jobDescription) == Ok(prompt)
    requires c.generate(prompt) == Ok(text)
    ensures GenerateResume(c, req).response == Returned(v) <==> c.loads(Normalize(text)) == Ok(v)
  {
  }

  /** A returned value is always json.loads' value on the normalised reply
      of a model call that succeeded: no stage's failure is ever answered
      with a value. */
  lemma ReturnedOnlyOnSuccess<U, J>(c: Collaborators<U, J>, req: Request<U>)
    requires GenerateResume(c, req).response.Returned?
    ensures c.dumps(req.userInfo).Ok?
    ensures c.format(c.dumps(req.userInfo).value, req.jobDescription).Ok?
    ensures c.generate(c.format(c.dumps(req.userInfo).value, req.jobDescription).value).Ok?
    ensures var text := c.generate(c.format(c.dumps(req.userInfo).value, req.jobDescription).value).value;
      c.loads(Normalize(text)) == Ok(GenerateResume(c, req).response.body)
  {
  }

  /** The two prefixed failures can be told apart from each other by their
      details. */
  lemma PrefixedDetailsDiffer(e: Exception, message: string)
    ensures "500: " + FormatPrefix + Str(e) != "500: " + ParsePrefix + message
  {
    var a, b := "500: " + FormatPrefix + Str(e), "500: " + ParsePrefix + message;
    assert a[5] == 'P' && b[5] == 'F';
  }

  /** The object text of the end-to-end example's reply. */
  const JaneDoeObject: string := "{" + "\"name\":\"Jane Doe\",\"title\":\"Software Engineer\"" + "}"

  /** The end-to-end example: for Jane Doe, a model reply fenced and tagged
      "json" is normalised to the bare object text, which is what json.loads
      receives, and its value is returned. */
  lemma JaneDoe<U, J>(c: Collaborators<U, J>, user: U, userJson: string, prompt: string, v: J)
    requires c.dumps(user) == Ok(userJson)
    requires c.format(userJson, "Software Engineer") == Ok(prompt)
    requires c.generate(prompt) == Ok("```json\n" + JaneDoeObject + "\n```")
    requires c.loads(JaneDoeObject) == Ok(v)
    ensures GenerateResume(c, Request(user, "Software Engineer")) == Outcome(Returned(v), AllStages)
  {
    var body := JaneDoeObject;
    assert body[0] == '{' && body[|body| - 1] == '}';
    assert !In(body[0], Backtick) && !In(body[0], Spaces);
    assert !In(body[|body| - 1], Backtick) && !In(body[|body| - 1], Spaces);
    FencedJsonReply(body);
  }
}
