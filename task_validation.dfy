/**
 * lib/validations/task.ts: the zod schemas for creating and updating a task,
 * as a parser from the request body to either the validated data or the set
 * of fields that failed.
 *
 * zod runs the checks of a chain in order, and `.min`/`.max` come before
 * `.trim()`: the length bounds apply to the string as sent, and the value
 * handed on is the trimmed one. The `.datetime()` check is a parameter.
 */
module TaskValidation {
  import opened Wrappers
  import opened Strings
  import opened TaskTypes

  /** One property of the JSON body. */
  datatype Raw = Missing | JsonNull | Str(s: string) | OtherValue

  /** The body: an object with the five properties the schemas read (others are stripped), or any other JSON value. */
  datatype RawTask = NotObject | Fields(title: Raw, description: Raw, status: Raw, priority: Raw, dueDate: Raw)

  /** A value that may be left out, given as null, or given. */
  datatype Nullable<T> = Absent | Null | Given(value: T)

  /** The validated data (`validation.data`). */
  datatype TaskData = TaskData(
    title: Option<string>,
    description: Nullable<string>,
    status: Option<Status>,
    priority: Option<Priority>,
    dueDate: Nullable<string>)

  const MaxTitle: nat := 200
  const MaxDescription: nat := 2000

  /** Each check gives the field's validated value, or `None` when the field fails. */
  function CheckTitle(r: Raw, optional: bool): Option<Option<string>> {
    match r
    case Missing => if optional then Some(None) else None
    case Str(s) => if 1 <= |s| <= MaxTitle then Some(Some(Trim(s))) else None
    case _ => None
  }

  function CheckDescription(r: Raw): Option<Nullable<string>> {
    match r
    case Missing => Some(Absent)
    case JsonNull => Some(Null)
    case Str(s) => if |s| <= MaxDescription then Some(Given(Trim(s))) else None
    case OtherValue => None
  }

  function CheckStatus(r: Raw): Option<Option<Status>> {
    match r
    case Missing => Some(None)
    case Str(s) => if ParseStatus(s).Some? then Some(ParseStatus(s)) else None
    case _ => None
  }

  function CheckPriority(r: Raw): Option<Option<Priority>> {
    match r
    case Missing => Some(None)
    case Str(s) => if ParsePriority(s).Some? then Some(ParsePriority(s)) else None
    case _ => None
  }

  function CheckDueDate(r: Raw, isDateTime: string -> bool): Option<Nullable<string>> {
    match r
    case Missing => Some(Absent)
    case JsonNull => Some(Null)
    case Str(s) => if isDateTime(s) then Some(Given(s)) else None
    case OtherValue => None
  }

  /** The names of the fields that fail (the keys of `error.flatten().fieldErrors`). */
  function FieldErrors(b: RawTask, titleOptional: bool, isDateTime: string -> bool): set<string>
    requires b.Fields?
  {
    (if CheckTitle(b.title, titleOptional).None? then {"title"} else {})
    + (if CheckDescription(b.description).None? then {"description"} else {})
    + (if CheckStatus(b.status).None? then {"status"} else {})
    + (if CheckPriority(b.priority).None? then {"priority"} else {})
    + (if CheckDueDate(b.dueDate, isDateTime).None? then {"dueDate"} else {})
  }

  /** `schema.safeParse(body)`, for the create schema (title required) or the update schema (title optional). */
  function Parse(b: RawTask, titleOptional: bool, isDateTime: string -> bool): (r: Result<TaskData, set<string>>)
    ensures b.NotObject? ==> r == Failure({})
    ensures b.Fields? ==> (r.Success? <==> FieldErrors(b, titleOptional, isDateTime) == {})
    ensures b.Fields? && r.Failure? ==> r.error == FieldErrors(b, titleOptional, isDateTime)
  {
    if b.NotObject? then Failure({})
    else
      var errors := FieldErrors(b, titleOptional, isDateTime);
      if errors != {} then Failure(errors)
      else
        Success(TaskData(
          CheckTitle(b.title, titleOptional).value,
          CheckDescription(b.description).value,
          CheckStatus(b.status).value,
          CheckPriority(b.priority).value,
          CheckDueDate(b.dueDate, isDateTime).value))
  }

  /** `createTaskSchema.safeParse(body)`: a body without a title always fails, and accepted data always has one. */
  function ParseCreate(b: RawTask, isDateTime: string -> bool): (r: Result<TaskData, set<string>>)
    ensures b.Fields? && b.title.Missing? ==> r.Failure? && "title" in r.error
    ensures r.Success? ==> r.value.title.Some?
  {
    Parse(b, false, isDateTime)
  }

  /** `updateTaskSchema.safeParse(body)`: a body without a title is judged on the other fields alone. */
  function ParseUpdate(b: RawTask, isDateTime: string -> bool): (r: Result<TaskData, set<string>>)
    ensures b.Fields? && b.title.Missing? ==> (r.Success? <==> OtherFieldsValid(b, isDateTime))
    ensures r.Success? && b.Fields? && b.title.Missing? ==> r.value.title == None
  {
    if b.Fields? then
      OtherFieldsChecked(b, isDateTime);
      Parse(b, true, isDateTime)
    else Parse(b, true, isDateTime)
  }

  /** The fields both schemas share, stated on the raw values. */
  predicate OtherFieldsValid(b: RawTask, isDateTime: string -> bool)
    requires b.Fields?
  {
    && (b.description.Missing? || b.description.JsonNull? || (b.description.Str? && |b.description.s| <= 2000))
    && (b.status.Missing? || (b.status.Str? && b.status.s in {"PENDING", "IN_PROGRESS", "COMPLETED"}))
    && (b.priority.Missing? || (b.priority.Str? && b.priority.s in {"LOW", "MEDIUM", "HIGH"}))
    && (b.dueDate.Missing? || b.dueDate.JsonNull? || (b.dueDate.Str? && isDateTime(b.dueDate.s)))
  }

  /** What the create schema accepts: an object whose title, as sent, has 1 to 200 characters. */
  predicate CreateValid(b: RawTask, isDateTime: string -> bool) {
    && b.Fields?
    && b.title.Str? && 1 <= |b.title.s| <= 200
    && OtherFieldsValid(b, isDateTime)
  }

  /** What the update schema accepts: the same, except that the title may be left out. */
  predicate UpdateValid(b: RawTask, isDateTime: string -> bool) {
    && b.Fields?
    && (b.title.Missing? || (b.title.Str? && 1 <= |b.title.s| <= 200))
    && OtherFieldsValid(b, isDateTime)
  }

  lemma OtherFieldsChecked(b: RawTask, isDateTime: string -> bool)
    requires b.Fields?
    ensures OtherFieldsValid(b, isDateTime) <==>
      && CheckDescription(b.description).Some? && CheckStatus(b.status).Some?
      && CheckPriority(b.priority).Some? && CheckDueDate(b.dueDate, isDateTime).Some?
  {
    StatusNamesRoundTrip(Pending, if b.status.Str? then b.status.s else "");
    PriorityNamesRoundTrip(Low, if b.priority.Str? then b.priority.s else "");
    if b.status.Str? && ParseStatus(b.status.s).Some? {
      assert b.status.s == StatusName(ParseStatus(b.status.s).value);
    }
    if b.priority.Str? && ParsePriority(b.priority.s).Some? {
      assert b.priority.s == PriorityName(ParsePriority(b.priority.s).value);
    }
  }

  /** The create parser accepts exactly what the create schema describes. */
  lemma CreateAcceptsExactly(b: RawTask, isDateTime: string -> bool)
    ensures ParseCreate(b, isDateTime).Success? <==> CreateValid(b, isDateTime)
  {
    if b.Fields? {
      OtherFieldsChecked(b, isDateTime);
    }
  }

  /** The update parser accepts exactly what the update schema describes. */
  lemma UpdateAcceptsExactly(b: RawTask, isDateTime: string -> bool)
    ensures ParseUpdate(b, isDateTime).Success? <==> UpdateValid(b, isDateTime)
  {
    if b.Fields? {
      OtherFieldsChecked(b, isDateTime);
    }
  }

  /** Accepted strings are handed on trimmed; the due date is handed on as sent. */
  lemma AcceptedValues(b: RawTask, titleOptional: bool, isDateTime: string -> bool)
    requires Parse(b, titleOptional, isDateTime).Success?
    ensures var d := Parse(b, titleOptional, isDateTime).value;
      && (b.title.Str? ==> d.title == Some(Trim(b.title.s)))
      && (b.title.Missing? ==> d.title == None)
      && (b.description.Str? ==> d.description == Given(Trim(b.description.s)))
      && (b.description.JsonNull? ==> d.description == Null)
      && (b.description.Missing? ==> d.description == Absent)
      && (b.status.Str? ==> d.status.Some? && StatusName(d.status.value) == b.status.s)
      && (b.status.Missing? ==> d.status == None)
      && (b.priority.Str? ==> d.priority.Some? && PriorityName(d.priority.value) == b.priority.s)
      && (b.priority.Missing? ==> d.priority == None)
      && (b.dueDate.Str? ==> d.dueDate == Given(b.dueDate.s))
      && (b.dueDate.JsonNull? ==> d.dueDate == Null)
      && (b.dueDate.Missing? ==> d.dueDate == Absent)
  {
    assert b.Fields? && FieldErrors(b, titleOptional, isDateTime) == {};
  }

  /** Every body the create schema accepts, the update schema accepts with the same data. */
  lemma CreateImpliesUpdate(b: RawTask, isDateTime: string -> bool)
    requires ParseCreate(b, isDateTime).Success?
    ensures ParseUpdate(b, isDateTime) == ParseCreate(b, isDateTime)
  {
    assert b.Fields? && FieldErrors(b, false, isDateTime) == {};
    assert FieldErrors(b, true, isDateTime) == {};
  }

  const EmptyObject: RawTask := Fields(Missing, Missing, Missing, Missing, Missing)

  /** `{}` is a valid update and an invalid creation, failing in the title only. */
  lemma EmptyObjectCases(isDateTime: string -> bool)
    ensures ParseUpdate(EmptyObject, isDateTime) == Success(TaskData(None, Absent, None, None, Absent))
    ensures ParseCreate(EmptyObject, isDateTime) == Failure({"title"})
  {
    assert FieldErrors(EmptyObject, true, isDateTime) == {};
    assert FieldErrors(EmptyObject, false, isDateTime) == {"title"};
  }

  /**
   * The bounds are checked before trimming: a title of only spaces is accepted
   * and becomes the empty string, while 200 letters with a space in front are
   * refused although the trimmed title would fit.
   */
  lemma BoundsApplyBeforeTrim(isDateTime: string -> bool, letters: string)
    requires |letters| == 200 && forall i :: 0 <= i < |letters| ==> letters[i] == 'a'
    ensures ParseCreate(Fields(Str("   "), Missing, Missing, Missing, Missing), isDateTime)
         == Success(TaskData(Some(""), Absent, None, None, Absent))
    ensures ParseCreate(Fields(Str(" " + letters), Missing, Missing, Missing, Missing), isDateTime) == Failure({"title"})
    ensures |Trim(" " + letters)| <= 200
  {
    BlankTrimsToEmpty();
    var blank := Fields(Str("   "), Missing, Missing, Missing, Missing);
    assert FieldErrors(blank, false, isDateTime) == {};
    var long := Fields(Str(" " + letters), Missing, Missing, Missing, Missing);
    assert FieldErrors(long, false, isDateTime) == {"title"};
    LeadingSpaceTrimmed(letters);
  }

  lemma BlankTrimsToEmpty()
    ensures Trim("   ") == []
  {
    assert forall i :: 0 <= i < |"   "| ==> IsJsWhitespace("   "[i]);
  }

  /** A leading space never survives trimming. */
  lemma LeadingSpaceTrimmed(s: string)
    ensures |Trim(" " + s)| <= |s|
  {
    var t := " " + s;
    assert t[1..] == s;
    assert TrimStart(t) == TrimStart(s);
  }

  /** null is not a status: `.optional()` allows the property to be missing, not null. */
  lemma NullStatusRejected(b: RawTask, isDateTime: string -> bool)
    requires b.Fields? && b.status == JsonNull
    ensures ParseCreate(b, isDateTime).Failure? && "status" in ParseCreate(b, isDateTime).error
    ensures ParseUpdate(b, isDateTime).Failure? && "status" in ParseUpdate(b, isDateTime).error
  {
  }
}
