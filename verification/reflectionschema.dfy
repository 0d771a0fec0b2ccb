/** `reflectionSchema` and its partial form `reflectionUpdateSchema`. */
module ReflectionSchema {
  import opened Wrappers
  import opened JsText
  import opened Zod
  import opened SharedFields

  datatype Mood = Great | Good | Neutral | Bad | Terrible

  function MoodName(m: Mood): string {
    match m
    case Great => "great"
    case Good => "good"
    case Neutral => "neutral"
    case Bad => "bad"
    case Terrible => "terrible"
  }

  function DecodeMood(s: string): (r: Option<Mood>)
    ensures r.Some? <==> s in {"great", "good", "neutral", "bad", "terrible"}
    ensures r.Some? ==> MoodName(r.value) == s
  {
    if s == "great" then Some(Great)
    else if s == "good" then Some(Good)
    else if s == "neutral" then Some(Neutral)
    else if s == "bad" then Some(Bad)
    else if s == "terrible" then Some(Terrible)
    else None
  }

  lemma {:induction false} DecodeMoodName(m: Mood)
    ensures DecodeMood(MoodName(m)) == Some(m)
  {
    match m
    case Great =>
    case Good =>
    case Neutral =>
    case Bad =>
    case Terrible =>
  }

  const ContentBounds: Bounds :=
    Bounds(1, Some(5000), Some("Content is required"), Some("Content must be less than 5000 characters"))

  /** A reflection accepted by `reflectionSchema`, normalised. */
  datatype ReflectionInput = ReflectionInput(content: string, mood: Field<Mood>, reflectionDate: string)

  /** A reflection patch accepted by `reflectionUpdateSchema`. */
  datatype ReflectionPatch = ReflectionPatch(content: Option<string>, mood: Field<Mood>, reflectionDate: Option<string>)

  predicate ContentOk(x: Value) { TrimmedIn(x, 1, 5000) }
  predicate MoodOk(x: Value) { Nullish(x) || (x.Str? && x.s in {"great", "good", "neutral", "bad", "terrible"}) }

  /** The inputs `reflectionSchema` accepts. */
  predicate ValidReflection(v: Value) {
    && v.Obj?
    && ContentOk(Get(v, "content"))
    && MoodOk(Get(v, "mood"))
    && NonEmptyText(Get(v, "reflection_date"))
  }

  /** The inputs `reflectionUpdateSchema` accepts: each field absent or as in `ValidReflection`. */
  predicate ValidReflectionPatch(v: Value) {
    && v.Obj?
    && (Get(v, "content").Undefined? || ContentOk(Get(v, "content")))
    && MoodOk(Get(v, "mood"))
    && (Get(v, "reflection_date").Undefined? || NonEmptyText(Get(v, "reflection_date")))
  }

  function ContentField(v: Value): (r: Parsed<string>)
    requires v.Obj?
    ensures r.Success? <==> ContentOk(Get(v, "content"))
    ensures r.Success? ==> r.value == Trim(Get(v, "content").s)
    ensures Reported(r)
  {
    TrimmedText(Get(v, "content"), [Key("content")], ContentBounds)
  }

  function MoodField(v: Value): (r: Parsed<Field<Mood>>)
    requires v.Obj?
    ensures r.Success? <==> MoodOk(Get(v, "mood"))
    ensures r.Success? ==> (Get(v, "mood").Undefined? <==> r.value.Omitted?)
    ensures r.Success? ==> (Get(v, "mood").Null? <==> r.value.NullValue?)
    ensures r.Success? && r.value.Given? ==> MoodName(r.value.value) == Get(v, "mood").s
    ensures Reported(r)
  {
    OptionalNullable(Get(v, "mood"), Enum(Get(v, "mood"), [Key("mood")], DecodeMood))
  }

  /** `reflectionSchema.safeParse(v)`. */
  function ParseReflection(v: Value): (r: Parsed<ReflectionInput>)
    ensures r.Success? <==> ValidReflection(v)
    ensures Reported(r)
  {
    if !v.Obj? then NotAnObject([])
    else
      var content := ContentField(v);
      var mood := MoodField(v);
      var date := DateField(v, "reflection_date");
      if content.Success? && mood.Success? && date.Success?
      then Success(ReflectionInput(content.value, mood.value, date.value))
      else Failure(IssuesOf(content) + IssuesOf(mood) + IssuesOf(date))
  }

  /** `reflectionUpdateSchema.safeParse(v)`. */
  function ParseReflectionPatch(v: Value): (r: Parsed<ReflectionPatch>)
    ensures r.Success? <==> ValidReflectionPatch(v)
    ensures Reported(r)
  {
    if !v.Obj? then NotAnObject([])
    else
      var content := Optional(Get(v, "content"), ContentField(v));
      var mood := MoodField(v);
      var date := Optional(Get(v, "reflection_date"), DateField(v, "reflection_date"));
      if content.Success? && mood.Success? && date.Success?
      then Success(ReflectionPatch(content.value, mood.value, date.value))
      else Failure(IssuesOf(content) + IssuesOf(mood) + IssuesOf(date))
  }

  /** The shape of every reflection the schema outputs. */
  predicate NormalReflection(r: ReflectionInput) {
    IsTrimmed(r.content) && 1 <= JsLength(r.content) <= 5000 && JsLength(r.reflectionDate) >= 1
  }

  /** What an accepted reflection holds: the content trimmed, mood and date as given. */
  lemma ReflectionNormalised(v: Value)
    requires ParseReflection(v).Success?
    ensures var r := ParseReflection(v).value;
      && r.content == Trim(Get(v, "content").s)
      && r.reflectionDate == Get(v, "reflection_date").s
      && (Get(v, "mood").Undefined? <==> r.mood.Omitted?)
      && (Get(v, "mood").Null? <==> r.mood.NullValue?)
      && (r.mood.Given? ==> MoodName(r.mood.value) == Get(v, "mood").s)
      && NormalReflection(r)
  {
    var r := ParseReflection(v).value;
    assert r == ReflectionInput(ContentField(v).value, MoodField(v).value, DateField(v, "reflection_date").value);
  }

  /**
   * What an accepted patch holds: exactly the supplied fields, the content
   * trimmed, the date as given, and a supplied mood null or the one named.
   */
  lemma ReflectionPatchNormalised(v: Value)
    requires ParseReflectionPatch(v).Success?
    ensures var p := ParseReflectionPatch(v).value;
      && (Get(v, "content").Undefined? <==> p.content.None?)
      && (p.content.Some? ==> p.content.value == Trim(Get(v, "content").s))
      && (Get(v, "reflection_date").Undefined? <==> p.reflectionDate.None?)
      && (p.reflectionDate.Some? ==> p.reflectionDate.value == Get(v, "reflection_date").s)
      && (Get(v, "mood").Undefined? <==> p.mood.Omitted?)
      && (Get(v, "mood").Null? <==> p.mood.NullValue?)
      && (p.mood.Given? ==> MoodName(p.mood.value) == Get(v, "mood").s)
  {
    var p := ParseReflectionPatch(v).value;
    assert p == ReflectionPatch(Optional(Get(v, "content"), ContentField(v)).value, MoodField(v).value,
                                Optional(Get(v, "reflection_date"), DateField(v, "reflection_date")).value);
  }

  function MoodValue(m: Mood): Value { Str(MoodName(m)) }

  /** A normalised reflection as the object a form would submit. */
  function EncodeReflection(r: ReflectionInput): Value {
    Obj(map["content" := Str(r.content), "reflection_date" := Str(r.reflectionDate)]
        + Entry("mood", FieldValue(r.mood, MoodValue)))
  }

  lemma EncodeReflectionFields(r: ReflectionInput)
    ensures Get(EncodeReflection(r), "content") == Str(r.content)
    ensures Get(EncodeReflection(r), "reflection_date") == Str(r.reflectionDate)
    ensures Get(EncodeReflection(r), "mood") == FieldValue(r.mood, MoodValue)
  {
  }

  lemma EncodedMood(x: Value, r: ReflectionInput)
    requires x.Obj? && Get(x, "mood") == FieldValue(r.mood, MoodValue)
    ensures MoodField(x) == Success(r.mood)
  {
    if r.mood.Given? {
      DecodeMoodName(r.mood.value);
      EnumOfName(MoodName(r.mood.value), [Key("mood")], DecodeMood, r.mood.value);
    }
  }

  lemma EncodedReflectionTexts(x: Value, r: ReflectionInput)
    requires x.Obj? && NormalReflection(r)
    requires Get(x, "content") == Str(r.content) && Get(x, "reflection_date") == Str(r.reflectionDate)
    ensures ContentField(x) == Success(r.content)
    ensures DateField(x, "reflection_date") == Success(r.reflectionDate)
  {
    TrimmedTextOfTrimmed(r.content, [Key("content")], ContentBounds);
  }

  /** Every normalised reflection, submitted as an object, is accepted unchanged. */
  lemma ReflectionRoundTrip(r: ReflectionInput)
    requires NormalReflection(r)
    ensures ParseReflection(EncodeReflection(r)) == Success(r)
  {
    EncodeReflectionFields(r);
    var x := EncodeReflection(r);
    EncodedMood(x, r);
    EncodedReflectionTexts(x, r);
  }

  /** Re-validating a validated reflection gives the same reflection back. */
  lemma ReflectionRevalidation(v: Value)
    requires ParseReflection(v).Success?
    ensures ParseReflection(EncodeReflection(ParseReflection(v).value)) == ParseReflection(v)
  {
    ReflectionNormalised(v);
    ReflectionRoundTrip(ParseReflection(v).value);
  }

  /** Blank content is rejected with "Content is required". */
  lemma BlankContentRejected(v: Value)
    requires v.Obj? && Blank(Get(v, "content"))
    ensures ParseReflection(v).Failure? && ParseReflectionPatch(v).Failure?
    ensures Issue([Key("content")], TooSmall, Some("Content is required")) in ParseReflection(v).error
    ensures Issue([Key("content")], TooSmall, Some("Content is required")) in ParseReflectionPatch(v).error
  {
    BlankTextTooShort(Get(v, "content"), [Key("content")], ContentBounds);
    var content := Optional(Get(v, "content"), ContentField(v));
    assert ParseReflectionPatch(v).error
        == IssuesOf(content) + IssuesOf(MoodField(v))
           + IssuesOf(Optional(Get(v, "reflection_date"), DateField(v, "reflection_date")));
  }

  /**
   * A patch that supplies content and date is accepted exactly when the
   * create schema accepts it.
   */
  lemma FullReflectionPatchIsReflection(v: Value)
    requires v.Obj? && !Get(v, "content").Undefined? && !Get(v, "reflection_date").Undefined?
    ensures ParseReflectionPatch(v).Success? <==> ParseReflection(v).Success?
  {
  }

  /** Every reflection the create schema accepts is also an acceptable patch. */
  lemma ReflectionIsPatch(v: Value)
    requires ParseReflection(v).Success?
    ensures ParseReflectionPatch(v).Success?
  {
  }
}
