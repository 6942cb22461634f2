/** The admin page that creates a course: a form with a title, a description, a price, a
    thumbnail and a growing list of lessons, each with a growing list of modules. The form
    is validated with the course schema before `onSubmit` runs; `onSubmit` then checks the
    session and the thumbnail and sends the fields the `POST /api/course` handler reads. */
module CourseForm {
  import opened JsValues
  import opened JsText
  import opened Zod
  import opened CourseSchema
  import opened Auth
  import CourseRoute

  datatype FormModule = FormModule(title: string, content: string, videoUrl: string)

  datatype FormLesson = FormLesson(title: string, order: int, modules: seq<FormModule>)

  /** The form's values. The price input is read with `parseFloat`: `None` is `NaN`. */
  datatype Draft = Draft(title: string, description: string, price: Option<int>, lessons: seq<FormLesson>)

  /** `defaultValues`. */
  const DefaultDraft := Draft("", "", Some(0), [])

  /** What `addLesson` appends to a form that has `count` lessons: an empty lesson whose order
      is its position counted from 1, so appending it keeps every order equal to its position. */
  function FreshLesson(count: nat): (r: FormLesson)
    ensures r.title == "" && r.modules == []
    ensures forall ls :: |ls| == count && OrdersFollowPositions(ls) ==> OrdersFollowPositions(ls + [r])
  {
    FormLesson("", count + 1, [])
  }

  /** What `addModule` appends. */
  const FreshModule := FormModule("", "", "")

  /** Lesson `i` has order `i + 1`. */
  predicate OrdersFollowPositions(lessons: seq<FormLesson>) {
    forall i :: 0 <= i < |lessons| ==> lessons[i].order == i + 1
  }

  /** A module as the schema sees it. */
  function ModuleValue(m: FormModule): Value {
    VObj(map["title" := VStr(m.title), "content" := VStr(m.content), "video_url" := VStr(m.videoUrl)])
  }

  function ModulesValue(ms: seq<FormModule>): (r: Value)
    ensures r.VArr? && |r.elems| == |ms|
    ensures forall k :: 0 <= k < |ms| ==> r.elems[k] == ModuleValue(ms[k])
  {
    VArr(seq(|ms|, k requires 0 <= k < |ms| => ModuleValue(ms[k])))
  }

  /** A lesson as the schema sees it. */
  function LessonValue(l: FormLesson): Value {
    VObj(map["title" := VStr(l.title), "order" := VNum(l.order), "modules" := ModulesValue(l.modules)])
  }

  function LessonsValue(ls: seq<FormLesson>): (r: Value)
    ensures r.VArr? && |r.elems| == |ls|
    ensures forall k :: 0 <= k < |ls| ==> r.elems[k] == LessonValue(ls[k])
  {
    VArr(seq(|ls|, k requires 0 <= k < |ls| => LessonValue(ls[k])))
  }

  function PriceValue(price: Option<int>): Value {
    if price.Some? then VNum(price.value) else VNaN
  }

  /** The form's values as the schema resolver sees them: the texts as typed, the price as a
      number or `NaN`, and the lessons with their modules. */
  function DraftValue(d: Draft): (r: Value)
    ensures Prop(r, "title") == Some(VStr(d.title)) && Prop(r, "description") == Some(VStr(d.description))
    ensures Prop(r, "price") == Some(VNaN) <==> d.price.None?
    ensures d.price.Some? ==> Prop(r, "price") == Some(VNum(d.price.value))
    ensures Prop(r, "lessons") == Some(LessonsValue(d.lessons))
  {
    VObj(map["title" := VStr(d.title), "description" := VStr(d.description),
             "price" := PriceValue(d.price), "lessons" := LessonsValue(d.lessons)])
  }

  /** `String(price)` for an integer price, or `"NaN"`. */
  function PriceText(price: Option<int>): (r: string)
    ensures price.Some? && price.value >= 0 ==> r == DecimalString(price.value)
  {
    match price
    case None => "NaN"
    case Some(n) => if n >= 0 then DecimalString(n) else "-" + DecimalString(-n)
  }

  /** The form data `onSubmit` sends; `stringify` stands for `JSON.stringify`. */
  function Payload(d: Draft, thumbnail: File, stringify: Value -> string): (r: FormData)
    ensures r.Keys == {"title", "description", "price", "thumbnail", "lessons"}
    ensures r["title"] == Text(d.title) && r["description"] == Text(d.description)
    ensures r["price"] == Text(PriceText(d.price)) && r["thumbnail"] == Blob(thumbnail)
    ensures r["lessons"] == Text(stringify(LessonsValue(d.lessons)))
  {
    map["title" := Text(d.title), "description" := Text(d.description), "price" := Text(PriceText(d.price)),
        "thumbnail" := Blob(thumbnail), "lessons" := Text(stringify(LessonsValue(d.lessons)))]
  }

  /** Where `onSubmit` stops, or the request it sends. */
  datatype Outcome =
    | Rejected(issues: seq<Issue>)   // the resolver's issues; `onSubmit` does not run
    | NotAllowed                     // no admin session
    | NoThumbnail                    // no thumbnail chosen
    | Send(request: FormData)        // `fetch("/api/course", { body })`

  /** The default form fails validation: its title and description are empty, its price is
      0, and it has no lesson. */
  lemma DefaultDraftRejected()
    ensures var issues := CourseIssues(DraftValue(DefaultDraft));
            && Issue([Key("title")], TooSmall(Some("Course title is required"))) in issues
            && Issue([Key("description")], TooSmall(Some("Course description is required"))) in issues
            && Issue([Key("price")], TooSmall(Some("Price must be at least Rp. 1"))) in issues
            && Issue([Key("lessons")], TooSmall(Some("At least one lesson is required"))) in issues
  {
    var v := DraftValue(DefaultDraft);
    assert Prop(v, "lessons") == Some(VArr([]));
    assert LessonsIssues(Prop(v, "lessons")) == Fail(TooSmall(Some("At least one lesson is required"))) + Elements([]);
    var title := Field("title", NonEmptyString(Prop(v, "title"), "Course title is required"));
    var description := Field("description", NonEmptyString(Prop(v, "description"), "Course description is required"));
    var price := Field("price", NumberAtLeastOne(Prop(v, "price"), Some("Price must be at least Rp. 1")));
    var lessons := Field("lessons", LessonsIssues(Prop(v, "lessons")));
    assert title[0] == Issue([Key("title")], TooSmall(Some("Course title is required")));
    assert description[0] == Issue([Key("description")], TooSmall(Some("Course description is required")));
    assert price[0] == Issue([Key("price")], TooSmall(Some("Price must be at least Rp. 1")));
    assert lessons[0] == Issue([Key("lessons")], TooSmall(Some("At least one lesson is required")));
    assert CourseIssues(v) == title + description + price + lessons;
  }

  /** A freshly added lesson fails validation, on its empty title and its empty list of
      modules. */
  lemma FreshLessonRejected(count: nat)
    ensures var issues := LessonIssues(LessonValue(FreshLesson(count)));
            && Issue([Key("title")], TooSmall(Some("Lesson title is required"))) in issues
            && Issue([Key("modules")], TooSmall(Some("At least one module is required"))) in issues
  {
    var v := LessonValue(FreshLesson(count));
    var title := Field("title", NonEmptyString(Prop(v, "title"), "Lesson title is required"));
    var order := Field("order", OptionalNumberAtLeastOne(Prop(v, "order")));
    var modules := Field("modules", ModulesIssues(Prop(v, "modules")));
    assert title[0] == Issue([Key("title")], TooSmall(Some("Lesson title is required")));
    assert modules[0] == Issue([Key("modules")], TooSmall(Some("At least one module is required")));
    assert LessonIssues(v) == title + order + modules;
  }

  /** A freshly added module fails validation on its title and its content and on nothing
      else: its empty video URL is accepted. */
  lemma FreshModuleIssues()
    ensures ModuleIssues(ModuleValue(FreshModule))
            == [Issue([Key("title")], TooSmall(Some("Module title is required"))),
                Issue([Key("content")], TooSmall(Some("Module content is required")))]
  {
    var v := ModuleValue(FreshModule);
    assert [Key("title")] + [] == [Key("title")] && [Key("content")] + [] == [Key("content")];
    assert NonEmptyString(Prop(v, "title"), "Module title is required")
        == Fail(TooSmall(Some("Module title is required")));
    assert NonEmptyString(Prop(v, "content"), "Module content is required")
        == Fail(TooSmall(Some("Module content is required")));
    assert Field("title", NonEmptyString(Prop(v, "title"), "Module title is required"))
        == [Issue([Key("title")], TooSmall(Some("Module title is required")))];
    assert Field("content", NonEmptyString(Prop(v, "content"), "Module content is required"))
        == [Issue([Key("content")], TooSmall(Some("Module content is required")))];
    assert Field("order", OptionalNumberAtLeastOne(Prop(v, "order"))) == [];
    assert Field("video_url", VideoUrlIssues(Prop(v, "video_url"))) == [];
  }

  /** A form that passes validation has a price of at least 1. */
  lemma ValidDraftPrice(d: Draft)
    requires ValidCourse(DraftValue(d))
    ensures d.price.Some? && d.price.value >= 1
  {
    ValidCourseIff(DraftValue(d));
  }

  /** The server reads back the values of the form from the request it sends. */
  lemma PayloadParsed(d: Draft, thumbnail: File, stringify: Value -> string,
                      parseJson: string -> Option<Value>, toNumber: string -> Option<int>)
    requires d.price.Some? && d.price.value >= 0
    requires parseJson(stringify(LessonsValue(d.lessons))) == Some(LessonsValue(d.lessons))
    requires parseJson("") == None
    requires toNumber(DecimalString(d.price.value)) == d.price
    ensures Truthy(Get(Payload(d, thumbnail, stringify), "lessons"))
    ensures CourseRoute.ParsedSubmission(Payload(d, thumbnail, stringify), parseJson, toNumber) == Some(DraftValue(d))
  {
    var form := Payload(d, thumbnail, stringify);
    var submission := CourseRoute.Submission(form, LessonsValue(d.lessons), toNumber);
    assert submission.props.Keys == DraftValue(d).props.Keys;
    assert submission.props == DraftValue(d).props;
  }

  /** A request the form sends passes every check of `POST /api/course` up to the upload,
      provided the session is the same, parsing the text `stringify` gives back the value
      (and parsing `""` fails, as it does) and `Number` reads back the decimal text of a natural number. */
  lemma PayloadReachesUpload(d: Draft, thumbnail: File, session: Option<Session>, stringify: Value -> string,
                             parseJson: string -> Option<Value>, toNumber: string -> Option<int>)
    requires ValidCourse(DraftValue(d)) && IsAdmin(session)
    requires parseJson(stringify(LessonsValue(d.lessons))) == Some(LessonsValue(d.lessons))
    requires parseJson("") == None
    requires forall n: nat :: toNumber(DecimalString(n)) == Some(n)
    ensures CourseRoute.CourseStage(session, Payload(d, thumbnail, stringify), parseJson, toNumber)
            == CourseRoute.Ready(DraftValue(d), thumbnail)
  {
    ValidDraftPrice(d);
    PayloadParsed(d, thumbnail, stringify, parseJson, toNumber);
    CourseRoute.StageReady(session, Payload(d, thumbnail, stringify), parseJson, toNumber, DraftValue(d), thumbnail);
  }

  /** The state of the form: its values and the chosen thumbnail. */
  class FormState {
    var title: string
    var description: string
    var price: Option<int>
    var lessons: seq<FormLesson>
    var thumbnail: Option<File>

    function Values(): Draft
      reads this
    {
      Draft(title, description, price, lessons)
    }

    /** Lessons are only ever appended by `AddLesson`, so each has its position as order. */
    predicate Valid()
      reads this
    {
      OrdersFollowPositions(lessons)
    }

    /** The form with `defaultValues` and no thumbnail. */
    constructor ()
      ensures Values() == DefaultDraft && thumbnail.None?
      ensures Valid()
    {
      title, description, price, lessons, thumbnail := "", "", Some(0), [], None;
    }

    /** `addLesson`: one empty lesson, numbered after the lessons already there. */
    method AddLesson()
      requires Valid()
      modifies this`lessons
      ensures lessons == old(lessons) + [FreshLesson(|old(lessons)|)]
      ensures Valid()
    {
      lessons := lessons + [FreshLesson(|lessons|)];
    }

    /** `addModule(lessonIndex)`: one empty module at the end of lesson `lessonIndex`; the
        page offers it only for a lesson it shows. */
    method AddModule(lessonIndex: nat)
      requires Valid() && lessonIndex < |lessons|
      modifies this`lessons
      ensures |lessons| == |old(lessons)|
      ensures lessons[lessonIndex] == old(lessons)[lessonIndex].(modules := old(lessons)[lessonIndex].modules + [FreshModule])
      ensures forall i :: 0 <= i < |lessons| && i != lessonIndex ==> lessons[i] == old(lessons)[i]
      ensures Valid()
    {
      var lesson := lessons[lessonIndex];
      lessons := lessons[lessonIndex := lesson.(modules := lesson.modules + [FreshModule])];
    }

    /** Typing into the title, description or price input. */
    method SetFields(title': string, description': string, price': Option<int>)
      modifies this`title, this`description, this`price
      ensures Values() == old(Values()).(title := title', description := description', price := price')
    {
      title, description, price := title', description', price';
    }

    /** Typing into the inputs of lesson `lessonIndex`. */
    method SetLessonTitle(lessonIndex: nat, title': string)
      requires Valid() && lessonIndex < |lessons|
      modifies this`lessons
      ensures lessons == old(lessons)[lessonIndex := old(lessons)[lessonIndex].(title := title')]
      ensures Valid()
    {
      lessons := lessons[lessonIndex := lessons[lessonIndex].(title := title')];
    }

    /** Typing into the inputs of module `moduleIndex` of lesson `lessonIndex`. */
    method SetModule(lessonIndex: nat, moduleIndex: nat, m: FormModule)
      requires Valid() && lessonIndex < |lessons| && moduleIndex < |lessons[lessonIndex].modules|
      modifies this`lessons
      ensures lessons == old(lessons)[lessonIndex :=
                old(lessons)[lessonIndex].(modules := old(lessons)[lessonIndex].modules[moduleIndex := m])]
      ensures Valid()
    {
      var lesson := lessons[lessonIndex];
      lessons := lessons[lessonIndex := lesson.(modules := lesson.modules[moduleIndex := m])];
    }

    /** A change of the thumbnail input: a chosen file replaces the thumbnail; clearing the
        input keeps the thumbnail chosen before (only the preview is dropped). */
    method SetThumbnail(file: Option<File>)
      modifies this`thumbnail
      ensures thumbnail == if file.Some? then file else old(thumbnail)
    {
      if file.Some? {
        thumbnail := file;
      }
    }

    /** `form.handleSubmit(onSubmit)`: the resolver validates the values first; then
        `onSubmit` checks the session, then the thumbnail, and sends the request. */
    method Submit(session: Option<Session>, stringify: Value -> string) returns (outcome: Outcome)
      ensures CourseIssues(DraftValue(Values())) != [] ==> outcome == Rejected(CourseIssues(DraftValue(Values())))
      ensures CourseIssues(DraftValue(Values())) == [] && !IsAdmin(session) ==> outcome == NotAllowed
      ensures CourseIssues(DraftValue(Values())) == [] && IsAdmin(session) && thumbnail.None? ==>
                outcome == NoThumbnail
      ensures CourseIssues(DraftValue(Values())) == [] && IsAdmin(session) && thumbnail.Some? ==>
                outcome == Send(Payload(Values(), thumbnail.value, stringify))
    {
      var issues := CourseIssues(DraftValue(Values()));
      if issues != [] {
        return Rejected(issues);
      }
      if !IsAdmin(session) {
        return NotAllowed;
      }
      if thumbnail.None? {
        return NoThumbnail;
      }
      var request := Payload(Values(), thumbnail.value, stringify);
      outcome := Send(request);
    }
  }
}
