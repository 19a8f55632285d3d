/** The reply normaliser of main.py:153,

      response.text.strip("`").lstrip("json").strip().strip("`")

    as four stages. Each stage only removes characters from the ends of what
    the previous one left. */
module Normalizer {
  import opened PyStr

  /** The characters of the argument "`" of the two fence strips. */
  const Backtick: CharSet := Chars({'`'})

  /** The characters of the argument "json" of lstrip: a set, not a prefix. */
  const TagChars: CharSet := Chars({'j', 's', 'o', 'n'})

  /** Stage 1: raw.strip("`"). */
  function FenceStripped(raw: string): string
  {
    Strip(raw, Backtick)
  }

  /** Stage 2: stage 1 followed by .lstrip("json"). */
  function TagStripped(raw: string): string
  {
    LStrip(FenceStripped(raw), TagChars)
  }

  /** Stage 3: stage 2 followed by the bare .strip(). */
  function SpaceStripped(raw: string): string
  {
    Strip(TagStripped(raw), Spaces)
  }

  /** The cleaned reply handed to json.loads: stage 3 followed by .strip("`").
      It is a piece of the raw reply cut out of it, and it neither begins nor
      ends with a backtick. */
  function Normalize(raw: string): (r: string)
    ensures IsSliceOf(r, raw)
    ensures r == [] || (r[0] != '`' && r[|r| - 1] != '`')
  {
    var r := Strip(SpaceStripped(raw), Backtick);
    StagesAreSlices(raw);
    assert r == [] || (!In(r[0], Backtick) && !In(r[|r| - 1], Backtick));
    r
  }

  /** Every stage is a slice of the stage before it, hence of the raw reply. */
  lemma StagesAreSlices(raw: string)
    ensures IsSliceOf(FenceStripped(raw), raw)
    ensures IsSliceOf(TagStripped(raw), raw)
    ensures IsSliceOf(SpaceStripped(raw), raw)
    ensures IsSliceOf(Strip(SpaceStripped(raw), Backtick), raw)
  {
    var t1 := FenceStripped(raw);
    var t2 := TagStripped(raw);
    var t3 := SpaceStripped(raw);
    StripsAreSlices(raw, Backtick);
    StripsAreSlices(t1, TagChars);
    SliceOfSlice(t2, t1, raw);
    StripsAreSlices(t2, Spaces);
    SliceOfSlice(t3, t2, raw);
    StripsAreSlices(t3, Backtick);
    SliceOfSlice(Strip(t3, Backtick), t3, raw);
  }

  /** Proof helper: Normalize unfolded into its four stages, given their
      values. */
  lemma NormalizeThrough(raw: string, t1: string, t2: string, t3: string)
    requires FenceStripped(raw) == t1
    requires LStrip(t1, TagChars) == t2
    requires Strip(t2, Spaces) == t3
    ensures Normalize(raw) == Strip(t3, Backtick)
  {
  }

  /** After stage 1 the text neither begins nor ends with a backtick, and it is
      the raw reply between its first and last non-backtick characters, with
      only backticks cut away on either side. */
  lemma FenceStage(raw: string)
    ensures var t := FenceStripped(raw);
      && (t == [] || (t[0] != '`' && t[|t| - 1] != '`'))
      && exists i, j :: StripsTo(raw, Backtick, i, j) && t == raw[i..j]
  {
    StripCuts(raw, Backtick);
  }

  /** After stage 2 the text does not begin with any of j, s, o, n; only a
      run of those letters was cut from the left, and the right end is
      exactly the one stage 1 left. */
  lemma TagStage(raw: string)
    ensures var t, u := FenceStripped(raw), TagStripped(raw);
      && (u == [] || !In(u[0], TagChars))
      && |u| <= |t| && u == t[|t| - |u|..]
      && (forall k :: 0 <= k < |t| - |u| ==> In(t[k], TagChars))
      && (u != [] ==> u[|u| - 1] == t[|t| - 1] && u[|u| - 1] != '`')
  {
  }

  /** The texts Normalize leaves unchanged: empty, or beginning with a
      character that is no backtick, none of j, s, o, n and no whitespace, and
      ending with one that is no backtick and no whitespace. */
  ghost predicate Settled(s: string)
  {
    s == [] ||
    (&& !In(s[0], Backtick) && !In(s[0], TagChars) && !In(s[0], Spaces)
     && !In(s[|s| - 1], Backtick) && !In(s[|s| - 1], Spaces))
  }

  /** A non-empty text whose first and last characters are neither a backtick
      nor whitespace: the body a fence and padding may wrap. The empty body
      is left out on purpose: with nothing between the fences there is no
      body to recover. */
  ghost predicate Bare(s: string)
  {
    && s != []
    && !In(s[0], Backtick) && !In(s[0], Spaces)
    && !In(s[|s| - 1], Backtick) && !In(s[|s| - 1], Spaces)
  }

  /** A Settled text passes through every stage unchanged. */
  lemma SettledIsFixed(s: string)
    requires Settled(s)
    ensures Normalize(s) == s
  {
    StripFixes(s, Backtick);
    LStripUnique(s, TagChars, 0);
    StripFixes(s, Spaces);
    NormalizeThrough(s, s, s, s);
  }

  /** A text Normalize does not shorten lost nothing at any stage, so each
      stage's end condition holds of the text itself. */
  lemma LengthKeptIsSettled(s: string)
    requires |Normalize(s)| == |s|
    ensures Settled(s)
  {
    var t1, t2, t3 := FenceStripped(s), TagStripped(s), SpaceStripped(s);
    NormalizeThrough(s, t1, t2, t3);
    KeptThroughStages(s, t1, t2, t3, Normalize(s));
  }

  /** The stages of a text that keeps its length, stated over the stages'
      values alone. */
  lemma KeptThroughStages(s: string, t1: string, t2: string, t3: string, t4: string)
    requires t1 == Strip(s, Backtick) && t2 == LStrip(t1, TagChars)
    requires t3 == Strip(t2, Spaces) && t4 == Strip(t3, Backtick)
    requires |t4| == |s|
    ensures Settled(s)
  {
    if s != [] {
      assert |t4| <= |t3| <= |t2| <= |t1| <= |s|;
      assert |t1| == |s| && |t2| == |s| && |t3| == |s|;
      StripKeepsAll(s, Backtick);
      LStripKeepsAll(t1, TagChars);
      StripKeepsAll(t2, Spaces);
      StripKeepsAll(t3, Backtick);
      var m := |s| - 1;
      assert t1[0] == s[0] && t2[0] == s[0] && t3[0] == s[0];
      assert t1[m] == s[m] && t2[m] == s[m] && t3[m] == s[m];
      assert !In(s[0], Backtick) && !In(s[0], TagChars) && !In(s[0], Spaces);
      assert !In(s[m], Backtick);
      assert t2[|t2| - 1] == t2[m];
      assert !In(s[m], Spaces);
    }
  }

  /** Normalize leaves a text unchanged exactly when it is Settled. */
  lemma NormalizeFixedPoint(s: string)
    ensures Normalize(s) == s <==> Settled(s)
  {
    if Settled(s) {
      SettledIsFixed(s);
    }
    if Normalize(s) == s {
      LengthKeptIsSettled(s);
    }
  }

  /** A reply that is a bare JSON object text, from '{' to '}', reaches
      json.loads unchanged: braces are in none of the strip sets. */
  lemma BracedReplyUnchanged(raw: string)
    requires |raw| > 0 && raw[0] == '{' && raw[|raw| - 1] == '}'
    ensures Normalize(raw) == raw
  {
    assert !In(raw[0], Backtick) && !In(raw[0], TagChars) && !In(raw[0], Spaces);
    assert !In(raw[|raw| - 1], Backtick) && !In(raw[|raw| - 1], Spaces);
    SettledIsFixed(raw);
  }

  /** Every character of s is in chars. */
  ghost predicate AllIn(s: string, cs: CharSet)
  {
    forall k :: 0 <= k < |s| ==> In(s[k], cs)
  }

  /** Stage 1 on a fenced reply removes exactly the two fences. */
  lemma FencedStage1(open: string, inner: string, close: string)
    requires AllIn(open, Backtick) && AllIn(close, Backtick)
    requires inner != [] && inner[0] != '`' && inner[|inner| - 1] != '`'
    ensures Strip(open + inner + close, Backtick) == inner
  {
    var raw := open + inner + close;
    var i, j := |open|, |open| + |inner|;
    assert raw[i] == inner[0] && raw[j - 1] == inner[|inner| - 1];
    forall k | 0 <= k < i ensures In(raw[k], Backtick) {
      assert raw[k] == open[k];
    }
    forall k | j <= k < |raw| ensures In(raw[k], Backtick) {
      assert raw[k] == close[k - j];
    }
    assert StripsTo(raw, Backtick, i, j);
    StripUnique(raw, Backtick, i, j);
    assert raw[i..j] == inner;
  }

  /** Stage 2 on a tagged text removes exactly the tag. */
  lemma FencedStage2(tag: string, rest: string)
    requires AllIn(tag, TagChars)
    requires rest != [] && !In(rest[0], TagChars)
    ensures LStrip(tag + rest, TagChars) == rest
  {
    var t := tag + rest;
    forall k | 0 <= k < |tag| ensures In(t[k], TagChars) {
      assert t[k] == tag[k];
    }
    assert t[|tag|] == rest[0];
    LStripUnique(t, TagChars, |tag|);
    assert t[|tag|..] == rest;
  }

  /** Stage 3 on a padded text removes exactly the padding. */
  lemma FencedStage3(w1: string, body: string, w2: string)
    requires AllIn(w1, Spaces) && AllIn(w2, Spaces)
    requires body != [] && !IsSpace(body[0]) && !IsSpace(body[|body| - 1])
    ensures Strip(w1 + body + w2, Spaces) == body
  {
    var t := w1 + body + w2;
    var i, j := |w1|, |w1| + |body|;
    assert t[i] == body[0] && t[j - 1] == body[|body| - 1];
    forall k | 0 <= k < i ensures In(t[k], Spaces) {
      assert t[k] == w1[k];
    }
    forall k | j <= k < |t| ensures In(t[k], Spaces) {
      assert t[k] == w2[k - j];
    }
    assert StripsTo(t, Spaces, i, j);
    StripUnique(t, Spaces, i, j);
    assert t[i..j] == body;
  }

  /** The characters at the cuts of a fenced reply. */
  lemma FencedEnds(tag: string, w1: string, body: string, w2: string)
    requires AllIn(tag, TagChars) && AllIn(w1, Spaces) && AllIn(w2, Spaces)
    requires Bare(body) && (w1 != [] || !In(body[0], TagChars))
    ensures var inner, rest := tag + w1 + body + w2, w1 + body + w2;
      && inner != [] && inner[0] != '`' && inner[|inner| - 1] != '`'
      && inner == tag + rest
      && rest != [] && !In(rest[0], TagChars)
      && !IsSpace(body[0]) && !IsSpace(body[|body| - 1])
      && !In(body[0], Backtick) && !In(body[|body| - 1], Backtick)
  {
    var inner, rest := tag + w1 + body + w2, w1 + body + w2;
    assert inner == tag + rest;
    if tag != [] {
      assert inner[0] == tag[0];
    } else if w1 != [] {
      assert inner[0] == w1[0];
    } else {
      assert inner[0] == body[0];
    }
    if w2 != [] {
      assert inner[|inner| - 1] == w2[|w2| - 1];
    } else {
      assert inner[|inner| - 1] == body[|body| - 1];
    }
    if w1 != [] {
      assert rest[0] == w1[0] && In(w1[0], Spaces);
    } else {
      assert rest[0] == body[0];
    }
  }

  /** A reply fenced by backticks, with a tag made of the letters j, s, o, n
      (such as "json", or none) and whitespace around the body, normalises to
      the body, provided the body is Bare. A body that begins with one of
      j, s, o, n survives when whitespace separates it from the tag. */
  lemma FencedReply(open: string, tag: string, w1: string, body: string, w2: string, close: string)
    requires AllIn(open, Backtick) && AllIn(close, Backtick)
    requires AllIn(tag, TagChars) && AllIn(w1, Spaces) && AllIn(w2, Spaces)
    requires Bare(body) && (w1 != [] || !In(body[0], TagChars))
    ensures Normalize(open + tag + w1 + body + w2 + close) == body
  {
    var inner, rest := tag + w1 + body + w2, w1 + body + w2;
    FencedEnds(tag, w1, body, w2);
    assert open + tag + w1 + body + w2 + close == open + inner + close;
    FencedStage1(open, inner, close);
    FencedStage2(tag, rest);
    FencedStage3(w1, body, w2);
    StripFixes(body, Backtick);
    NormalizeThrough(open + inner + close, inner, rest, body);
  }

  /** The commonest wrapping: a reply fenced as a json code block, with one
      newline on either side of the body, normalises to the body. */
  lemma FencedJsonReply(body: string)
    requires Bare(body)
    ensures Normalize("```json\n" + body + "\n```") == body
  {
    assert AllIn("```", Backtick) && AllIn("json", TagChars) && AllIn("\n", Spaces);
    FencedReply("```", "json", "\n", body, "\n", "```");
    FencePieces(body);
  }

  /** The json code block around body, cut into fence, tag and padding. */
  lemma FencePieces(body: string)
    ensures "```" + "json" + "\n" + body + "\n" + "```" == "```json\n" + body + "\n```"
  {
    var open := "```" + "json" + "\n";
    assert open == "```json\n";
    assert "\n" + "```" == "\n```";
    assert open + body + "\n" + "```" == open + body + ("\n" + "```");
  }

  /** The fenced reply of the worked example reaches json.loads as the bare
      object text. */
  lemma WorkedExample()
    ensures Normalize("```json\n{\"name\":\"A\"}\n```") == "{\"name\":\"A\"}"
  {
    var body := "{\"name\":\"A\"}";
    assert !In(body[0], Backtick) && !In(body[0], Spaces);
    assert !In(body[|body| - 1], Backtick) && !In(body[|body| - 1], Spaces);
    assert AllIn("json", TagChars) && AllIn("\n", Spaces);
    FencedReply("```", "json", "\n", body, "\n", "```");
    LiteralPieces();
  }

  /** The worked example's reply, cut into fence, tag, padding and body. */
  lemma LiteralPieces()
    ensures "```" + "json" + "\n" + "{\"name\":\"A\"}" + "\n" + "```" == "```json\n{\"name\":\"A\"}\n```"
  {
  }

  /** lstrip("json") removes any run of the letters j, s, o, n, not the
      prefix "json": a reply beginning "son" loses those three letters too. */
  lemma TagIsACharacterSet()
    ensures TagStripped("son{}") == "{}"
    ensures Normalize("son{}") == "{}"
  {
    FencedStage2("son", "{}");
    assert "son" + "{}" == "son{}";
    StripFixes("son{}", Backtick);
    StripFixes("{}", Spaces);
    StripFixes("{}", Backtick);
  }

  /** A reply that begins with one of j, s, o, n never reaches json.loads
      unchanged, even when it is valid JSON. */
  lemma TagLetterFirstIsCut(s: string)
    requires s != [] && In(s[0], TagChars)
    ensures Normalize(s) != s
  {
    NormalizeFixedPoint(s);
  }

  /** The JSON text null loses its first letter. */
  lemma NullLosesItsN()
    ensures Normalize("null") == "ull"
  {
    NullTagStage();
    StripFixes("ull", Spaces);
    StripFixes("ull", Backtick);
    NormalizeThrough("null", "null", "ull", "ull");
  }

  /** The first two stages on null. */
  lemma NullTagStage()
    ensures FenceStripped("null") == "null" && LStrip("null", TagChars) == "ull"
  {
    StripFixes("null", Backtick);
    LStripUnique("null", TagChars, 1);
    assert "null"[1..] == "ull";
  }

  /** Fenced as a json code block, null reaches json.loads intact: the
      newline after the tag stops lstrip("json") before the n. */
  lemma FencedNullIntact()
    ensures Normalize("```json\nnull\n```") == "null"
  {
    assert !In("null"[0], Backtick) && !In("null"[0], Spaces);
    assert !In("null"[3], Backtick) && !In("null"[3], Spaces);
    FencedJsonReply("null");
    NullFencePieces();
  }

  /** The fenced null, cut into the code block and its body. */
  lemma NullFencePieces()
    ensures "```json\n" + "null" + "\n```" == "```json\nnull\n```"
  {
  }

  /** Normalize is not idempotent: "`  j" becomes "j", and "j" becomes "". */
  lemma NotIdempotent()
    ensures Normalize("`  j") == "j"
    ensures Normalize("j") == ""
  {
    var raw := "`  j";
    assert StripsTo(raw, Backtick, 1, 4);
    StripUnique(raw, Backtick, 1, 4);
    assert raw[1..4] == "  j";
    LStripUnique("  j", TagChars, 0);
    assert StripsTo("  j", Spaces, 2, 3);
    StripUnique("  j", Spaces, 2, 3);
    assert "  j"[2..3] == "j";
    StripFixes("j", Backtick);
    LStripUnique("j", TagChars, 1);
    StripFixes([], Spaces);
    StripFixes([], Backtick);
  }
}
