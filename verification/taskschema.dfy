/** `academicTaskSchema` and its partial form `academicTaskUpdateSchema`. */
module TaskSchema {
  import opened Wrappers
  import opened JsText
  import opened Zod
  import opened SharedFields

  datatype TaskStatus = Pending | InProgress | Completed
  datatype Priority = Low | Medium | High

  function StatusName(s: TaskStatus): string {
    match s
    case Pending => "pending"
    case InProgress => "in_progress"
    case Completed => "completed"
  }

  function DecodeStatus(s: string): (r: Option<TaskStatus>)
    ensures r.Some? <==> s in {"pending", "in_progress", "completed"}
    ensures r.Some? ==> StatusName(r.value) == s
  {
    if s == "pending" then Some(Pending)
    else if s == "in_progress" then Some(InProgress)
    else if s == "completed" then Some(Completed)
    else None
  }

  function PriorityName(p: Priority): string {
    match p
    case Low => "low"
    case Medium => "medium"
    case High => "high"
  }

  function DecodePriority(s: string): (r: Option<Priority>)
    ensures r.Some? <==> s in {"low", "medium", "high"}
    ensures r.Some? ==> PriorityName(r.value) == s
  {
    if s == "low" then Some(Low)
    else if s == "medium" then Some(Medium)
    else if s == "high" then Some(High)
    else None
  }

  const SubjectBounds: Bounds :=
    Bounds(1, Some(100), Some("Subject is required"), Some("Subject must be less than 100 characters"))
  const TitleBounds: Bounds :=
    Bounds(1, Some(200), Some("Title is required"), Some("Title must be less than 200 characters"))
  const AnyLength: Bounds := Bounds(0, None, None, None)

  /** A task accepted by `academicTaskSchema`, normalised. */
  datatype AcademicTask = AcademicTask(
    subject: string,
    title: string,
    description: Field<string>,
    status: TaskStatus,
    priority: Priority,
    dueDate: Field<string>)

  /** A task patch accepted by `academicTaskUpdateSchema`. */
  datatype AcademicTaskPatch = AcademicTaskPatch(
    subject: Option<string>,
    title: Option<string>,
    description: Field<string>,
    status: Option<TaskStatus>,
    priority: Option<Priority>,
    dueDate: Field<string>)

  // Per-field acceptance, stated directly on the input value.

  predicate SubjectOk(x: Value) { TrimmedIn(x, 1, 100) }
  predicate TitleOk(x: Value) { TrimmedIn(x, 1, 200) }
  predicate StatusOk(x: Value) { x.Str? && x.s in {"pending", "in_progress", "completed"} }
  predicate PriorityOk(x: Value) { x.Str? && x.s in {"low", "medium", "high"} }
  predicate DueDateOk(x: Value) { Nullish(x) || x.Str? }

  /** The inputs `academicTaskSchema` accepts. */
  predicate ValidTask(v: Value) {
    && v.Obj?
    && SubjectOk(Get(v, "subject"))
    && TitleOk(Get(v, "title"))
    && DescriptionOk(Get(v, "description"))
    && (Get(v, "status").Undefined? || StatusOk(Get(v, "status")))
    && (Get(v, "priority").Undefined? || PriorityOk(Get(v, "priority")))
    && DueDateOk(Get(v, "due_date"))
  }

  /** The inputs `academicTaskUpdateSchema` accepts: each field absent or as in `ValidTask`. */
  predicate ValidTaskPatch(v: Value) {
    && v.Obj?
    && (Get(v, "subject").Undefined? || SubjectOk(Get(v, "subject")))
    && (Get(v, "title").Undefined? || TitleOk(Get(v, "title")))
    && DescriptionOk(Get(v, "description"))
    && (Get(v, "status").Undefined? || StatusOk(Get(v, "status")))
    && (Get(v, "priority").Undefined? || PriorityOk(Get(v, "priority")))
    && DueDateOk(Get(v, "due_date"))
  }

  function SubjectField(v: Value): (r: Parsed<string>)
    requires v.Obj?
    ensures r.Success? <==> SubjectOk(Get(v, "subject"))
    ensures r.Success? ==> r.value == Trim(Get(v, "subject").s)
    ensures Reported(r)
  {
    TrimmedText(Get(v, "subject"), [Key("subject")], SubjectBounds)
  }

  function TitleField(v: Value): (r: Parsed<string>)
    requires v.Obj?
    ensures r.Success? <==> TitleOk(Get(v, "title"))
    ensures r.Success? ==> r.value == Trim(Get(v, "title").s)
    ensures Reported(r)
  {
    TrimmedText(Get(v, "title"), [Key("title")], TitleBounds)
  }

  function StatusField(v: Value): (r: Parsed<TaskStatus>)
    requires v.Obj?
    ensures r.Success? <==> StatusOk(Get(v, "status"))
    ensures r.Success? ==> StatusName(r.value) == Get(v, "status").s
    ensures Reported(r)
  {
    Enum(Get(v, "status"), [Key("status")], DecodeStatus)
  }

  function PriorityField(v: Value): (r: Parsed<Priority>)
    requires v.Obj?
    ensures r.Success? <==> PriorityOk(Get(v, "priority"))
    ensures r.Success? ==> PriorityName(r.value) == Get(v, "priority").s
    ensures Reported(r)
  {
    Enum(Get(v, "priority"), [Key("priority")], DecodePriority)
  }

  function DueDateField(v: Value): (r: Parsed<Field<string>>)
    requires v.Obj?
    ensures r.Success? <==> DueDateOk(Get(v, "due_date"))
    ensures r.Success? ==> (Get(v, "due_date").Undefined? <==> r.value.Omitted?)
    ensures r.Success? ==> (Get(v, "due_date").Null? <==> r.value.NullValue?)
    ensures r.Success? && r.value.Given? ==> Get(v, "due_date").Str? && r.value.value == Get(v, "due_date").s
    ensures Reported(r)
  {
    OptionalNullable(Get(v, "due_date"), PlainText(Get(v, "due_date"), [Key("due_date")], AnyLength))
  }

  /** `academicTaskSchema.safeParse(v)`. */
  function ParseTask(v: Value): (r: Parsed<AcademicTask>)
    ensures r.Success? <==> ValidTask(v)
    ensures Reported(r)
  {
    if !v.Obj? then NotAnObject([])
    else
      var subject := SubjectField(v);
      var title := TitleField(v);
      var description := DescriptionField(v);
      var status := WithDefault(Get(v, "status"), Pending, StatusField(v));
      var priority := WithDefault(Get(v, "priority"), Medium, PriorityField(v));
      var dueDate := DueDateField(v);
      if subject.Success? && title.Success? && description.Success? && status.Success?
         && priority.Success? && dueDate.Success?
      then Success(AcademicTask(subject.value, title.value, description.value, status.value,
                                priority.value, dueDate.value))
      else Failure(IssuesOf(subject) + IssuesOf(title) + IssuesOf(description) + IssuesOf(status)
                   + IssuesOf(priority) + IssuesOf(dueDate))
  }

  /**
   * `academicTaskUpdateSchema.safeParse(v)`: `.partial()` wraps every field,
   * defaults included, in `.optional()`, so an absent field stays absent.
   */
  function ParseTaskPatch(v: Value): (r: Parsed<AcademicTaskPatch>)
    ensures r.Success? <==> ValidTaskPatch(v)
    ensures Reported(r)
  {
    if !v.Obj? then NotAnObject([])
    else
      var subject := Optional(Get(v, "subject"), SubjectField(v));
      var title := Optional(Get(v, "title"), TitleField(v));
      var description := DescriptionField(v);
      var status := Optional(Get(v, "status"), StatusField(v));
      var priority := Optional(Get(v, "priority"), PriorityField(v));
      var dueDate := DueDateField(v);
      if subject.Success? && title.Success? && description.Success? && status.Success?
         && priority.Success? && dueDate.Success?
      then Success(AcademicTaskPatch(subject.value, title.value, description.value, status.value,
                                     priority.value, dueDate.value))
      else Failure(IssuesOf(subject) + IssuesOf(title) + IssuesOf(description) + IssuesOf(status)
                   + IssuesOf(priority) + IssuesOf(dueDate))
  }

  /**
   * What an accepted task holds: the trimmed subject and title within their
   * bounds, the status and priority named by the input or their defaults when
   * absent, a description that is omitted exactly when it was absent, and the
   * due date as given.
   */
  lemma TaskNormalised(v: Value)
    requires ParseTask(v).Success?
    ensures var t := ParseTask(v).value;
      && t.subject == Trim(Get(v, "subject").s)
      && t.title == Trim(Get(v, "title").s)
      && 1 <= JsLength(t.subject) <= 100
      && 1 <= JsLength(t.title) <= 200
      && IsTrimmed(t.subject) && IsTrimmed(t.title)
      && (Get(v, "status").Undefined? ==> t.status == Pending)
      && (!Get(v, "status").Undefined? ==> StatusName(t.status) == Get(v, "status").s)
      && (Get(v, "priority").Undefined? ==> t.priority == Medium)
      && (!Get(v, "priority").Undefined? ==> PriorityName(t.priority) == Get(v, "priority").s)
      && (Get(v, "description").Undefined? <==> t.description.Omitted?)
      && (Get(v, "description").Null? <==> t.description.NullValue?)
      && (t.description.Given? ==> t.description.value == Trim(Get(v, "description").s))
      && (Get(v, "due_date").Undefined? <==> t.dueDate.Omitted?)
      && (Get(v, "due_date").Null? <==> t.dueDate.NullValue?)
      && (t.dueDate.Given? ==> t.dueDate.value == Get(v, "due_date").s)
      && NormalTask(t)
  {
    var t := ParseTask(v).value;
    assert t == AcademicTask(SubjectField(v).value, TitleField(v).value, DescriptionField(v).value,
      WithDefault(Get(v, "status"), Pending, StatusField(v)).value,
      WithDefault(Get(v, "priority"), Medium, PriorityField(v)).value, DueDateField(v).value);
  }

  /**
   * What an accepted patch holds: exactly the supplied fields, the texts
   * trimmed, the status and priority named by the input, and no defaults
   * filled in.
   */
  lemma TaskPatchNormalised(v: Value)
    requires ParseTaskPatch(v).Success?
    ensures var p := ParseTaskPatch(v).value;
      && (Get(v, "subject").Undefined? <==> p.subject.None?)
      && (p.subject.Some? ==> p.subject.value == Trim(Get(v, "subject").s))
      && (Get(v, "title").Undefined? <==> p.title.None?)
      && (p.title.Some? ==> p.title.value == Trim(Get(v, "title").s))
      && (Get(v, "status").Undefined? <==> p.status.None?)
      && (p.status.Some? ==> StatusName(p.status.value) == Get(v, "status").s)
      && (Get(v, "priority").Undefined? <==> p.priority.None?)
      && (p.priority.Some? ==> PriorityName(p.priority.value) == Get(v, "priority").s)
      && (Get(v, "description").Undefined? <==> p.description.Omitted?)
      && (Get(v, "description").Null? <==> p.description.NullValue?)
      && (p.description.Given? ==> p.description.value == Trim(Get(v, "description").s))
      && (Get(v, "due_date").Undefined? <==> p.dueDate.Omitted?)
      && (Get(v, "due_date").Null? <==> p.dueDate.NullValue?)
      && (p.dueDate.Given? ==> p.dueDate.value == Get(v, "due_date").s)
  {
    var p := ParseTaskPatch(v).value;
    assert p == AcademicTaskPatch(
      Optional(Get(v, "subject"), SubjectField(v)).value, Optional(Get(v, "title"), TitleField(v)).value,
      DescriptionField(v).value, Optional(Get(v, "status"), StatusField(v)).value,
      Optional(Get(v, "priority"), PriorityField(v)).value, DueDateField(v).value);
  }

  /** A normalised task as the object a form would submit. */
  function EncodeTask(t: AcademicTask): Value {
    Obj(map["subject" := Str(t.subject), "title" := Str(t.title),
            "status" := Str(StatusName(t.status)), "priority" := Str(PriorityName(t.priority))]
        + Entry("description", FieldValue(t.description, StrValue))
        + Entry("due_date", FieldValue(t.dueDate, StrValue)))
  }

  lemma {:induction false} DecodeStatusName(s: TaskStatus)
    ensures DecodeStatus(StatusName(s)) == Some(s)
  {
    match s
    case Pending =>
    case InProgress =>
    case Completed =>
  }

  lemma {:induction false} DecodePriorityName(p: Priority)
    ensures DecodePriority(PriorityName(p)) == Some(p)
  {
    match p
    case Low =>
    case Medium =>
    case High =>
  }

  /** The fields of an encoded task read back as the task's own values. */
  lemma EncodeTaskFields(t: AcademicTask)
    ensures Get(EncodeTask(t), "subject") == Str(t.subject)
    ensures Get(EncodeTask(t), "title") == Str(t.title)
    ensures Get(EncodeTask(t), "status") == Str(StatusName(t.status))
    ensures Get(EncodeTask(t), "priority") == Str(PriorityName(t.priority))
    ensures Get(EncodeTask(t), "description") == FieldValue(t.description, StrValue)
    ensures Get(EncodeTask(t), "due_date") == FieldValue(t.dueDate, StrValue)
  {
  }

  /** A task whose every field parses to the given values parses to that task. */
  lemma ParseTaskFromFields(e: Value, t: AcademicTask)
    requires e.Obj?
    requires SubjectField(e) == Success(t.subject) && TitleField(e) == Success(t.title)
    requires DescriptionField(e) == Success(t.description)
    requires WithDefault(Get(e, "status"), Pending, StatusField(e)) == Success(t.status)
    requires WithDefault(Get(e, "priority"), Medium, PriorityField(e)) == Success(t.priority)
    requires DueDateField(e) == Success(t.dueDate)
    ensures ParseTask(e) == Success(t)
  {
  }

  /** The shape of every task the schema outputs. */
  predicate NormalTask(t: AcademicTask) {
    && IsTrimmed(t.subject) && 1 <= JsLength(t.subject) <= 100
    && IsTrimmed(t.title) && 1 <= JsLength(t.title) <= 200
    && (t.description.Given? ==> IsTrimmed(t.description.value) && JsLength(t.description.value) <= 2000)
  }

  lemma EncodedTaskTexts(x: Value, t: AcademicTask)
    requires x.Obj? && NormalTask(t)
    requires Get(x, "subject") == Str(t.subject) && Get(x, "title") == Str(t.title)
    ensures SubjectField(x) == Success(t.subject)
    ensures TitleField(x) == Success(t.title)
  {
    TrimmedTextOfTrimmed(t.subject, [Key("subject")], SubjectBounds);
    TrimmedTextOfTrimmed(t.title, [Key("title")], TitleBounds);
  }

  lemma EncodedTaskDescription(x: Value, t: AcademicTask)
    requires x.Obj? && NormalTask(t)
    requires Get(x, "description") == FieldValue(t.description, StrValue)
    ensures DescriptionField(x) == Success(t.description)
  {
    if t.description.Given? {
      TrimmedTextOfTrimmed(t.description.value, [Key("description")], DescriptionBounds);
    }
  }

  lemma EncodedTaskDueDate(x: Value, t: AcademicTask)
    requires x.Obj? && Get(x, "due_date") == FieldValue(t.dueDate, StrValue)
    ensures DueDateField(x) == Success(t.dueDate)
  {
  }

  lemma EncodedTaskEnums(x: Value, t: AcademicTask)
    requires x.Obj?
    requires Get(x, "status") == Str(StatusName(t.status)) && Get(x, "priority") == Str(PriorityName(t.priority))
    ensures WithDefault(Get(x, "status"), Pending, StatusField(x)) == Success(t.status)
    ensures WithDefault(Get(x, "priority"), Medium, PriorityField(x)) == Success(t.priority)
  {
    DecodeStatusName(t.status);
    DecodePriorityName(t.priority);
    EnumOfName(StatusName(t.status), [Key("status")], DecodeStatus, t.status);
    EnumOfName(PriorityName(t.priority), [Key("priority")], DecodePriority, t.priority);
  }

  /** Every normalised task, submitted as an object, is accepted unchanged. */
  lemma TaskRoundTrip(t: AcademicTask)
    requires NormalTask(t)
    ensures ParseTask(EncodeTask(t)) == Success(t)
  {
    EncodeTaskFields(t);
    var x := EncodeTask(t);
    EncodedTaskTexts(x, t);
    EncodedTaskDescription(x, t);
    EncodedTaskDueDate(x, t);
    EncodedTaskEnums(x, t);
    ParseTaskFromFields(x, t);
  }

  /** Re-validating a validated task gives the same task back. */
  lemma TaskRevalidation(v: Value)
    requires ParseTask(v).Success?
    ensures ParseTask(EncodeTask(ParseTask(v).value)) == ParseTask(v)
  {
    TaskNormalised(v);
    TaskRoundTrip(ParseTask(v).value);
  }

  /** A subject or title of whitespace only is rejected with its "required" message. */
  lemma BlankTaskTextRejected(v: Value)
    requires v.Obj? && (Blank(Get(v, "subject")) || Blank(Get(v, "title")))
    ensures ParseTask(v).Failure?
    ensures Blank(Get(v, "subject")) ==>
              Issue([Key("subject")], TooSmall, Some("Subject is required")) in ParseTask(v).error
    ensures Blank(Get(v, "title")) ==>
              Issue([Key("title")], TooSmall, Some("Title is required")) in ParseTask(v).error
  {
    if Blank(Get(v, "subject")) {
      BlankTextTooShort(Get(v, "subject"), [Key("subject")], SubjectBounds);
    }
    if Blank(Get(v, "title")) {
      BlankTextTooShort(Get(v, "title"), [Key("title")], TitleBounds);
    }
  }

  /** Every task the create schema accepts is also an acceptable patch. */
  lemma TaskIsPatch(v: Value)
    requires ParseTask(v).Success?
    ensures ParseTaskPatch(v).Success?
  {
  }

  /**
   * A patch that supplies subject and title is accepted exactly when the
   * create schema accepts it: supplied fields meet the create constraints.
   */
  lemma FullPatchIsTask(v: Value)
    requires v.Obj? && !Get(v, "subject").Undefined? && !Get(v, "title").Undefined?
    ensures ParseTaskPatch(v).Success? <==> ParseTask(v).Success?
  {
  }

}
