/** `POST /api/course` and `GET /api/course`. The `POST` handler runs a fixed pipeline:
    authorize, check the required fields, parse and validate the lessons, upload the thumbnail
    under a timestamped name, write the course with its lessons and modules, respond. */
module CourseRoute {
  import opened JsValues
  import opened JsText
  import opened Zod
  import opened CourseSchema
  import opened ObjectNames
  import opened Backend
  import opened Responses
  import opened Auth
  import opened Listing

  /** `{ title, description, price, lessons }`, the value the handler validates. */
  function Submission(form: FormData, lessons: Value, toNumber: string -> Option<int>): (r: Value)
    ensures Prop(r, "title") == Some(AsValue(Get(form, "title")))
    ensures Prop(r, "description") == Some(AsValue(Get(form, "description")))
    ensures Prop(r, "price") == Some(NumberValue(Get(form, "price"), toNumber))
    ensures Prop(r, "lessons") == Some(lessons)
  {
    VObj(map["title" := AsValue(Get(form, "title")), "description" := AsValue(Get(form, "description")),
             "price" := NumberValue(Get(form, "price"), toNumber), "lessons" := lessons])
  }

  /** `s.trim() || null`: `null` exactly for a blank text, and otherwise the non-empty
      trimmed text. */
  function TrimmedOrNull(s: string): (r: Option<string>)
    ensures r.None? <==> IsBlank(s)
    ensures r.Some? ==> r.value == Trim(s) && r.value != ""
  {
    TrimEmptyIffBlank(s);
    var t := Trim(s);
    if t == "" then None else Some(t)
  }

  /** A text is stored as `null` exactly when it is blank, and otherwise trimmed: without
      white space at either end, and the same once trimmed again. */
  lemma TrimmedOrNullSpec(s: string)
    ensures TrimmedOrNull(s).None? <==> IsBlank(s)
    ensures TrimmedOrNull(s).Some? ==>
              var t := TrimmedOrNull(s).value;
              t == Trim(s) && HasTrimmedEnds(t) && Trim(t) == t
  {
    TrimIdempotent(s);
  }

  // The shaping below is written for every value, so that it needs no precondition; the
  // handler applies it only to submissions that passed validation, and on those it is the
  // handler's mapping. The fallbacks (`""`, `0`, `[]`) are never reached there.

  /** `x.order ?? index + 1`: for an order the schema accepts, the given number or else the
      position counted from 1, and so at least 1. */
  function OrderAt(order: Option<Value>, index: nat): (r: int)
    ensures OrderAccepted(order) ==> OrderFollows(order, index, r) && r >= 1
  {
    if order.Some? && order.value.VNum? then order.value.n else index + 1
  }

  /** `module.video_url?.trim() || null`: `null` for an absent or blank URL, and otherwise
      the URL without white space at either end. */
  function StoredVideoUrl(videoUrl: Option<Value>): (r: Option<string>)
    ensures r.None? <==> videoUrl.None? || !videoUrl.value.VStr? || IsBlank(videoUrl.value.s)
    ensures r.Some? ==> r.value == Trim(videoUrl.value.s) && r.value != "" && HasTrimmedEnds(r.value)
  {
    if videoUrl.Some? && videoUrl.value.VStr? then TrimmedOrNull(videoUrl.value.s) else None
  }

  function StringOf(v: Option<Value>): string {
    if v.Some? && v.value.VStr? then v.value.s else ""
  }

  function NumberOf(v: Option<Value>): int {
    if v.Some? && v.value.VNum? then v.value.n else 0
  }

  function ElementsOf(v: Option<Value>): seq<Value> {
    if v.Some? && v.value.VArr? then v.value.elems else []
  }

  /** The module row written for module number `index` of a lesson: each field that keeps
      the module rules is stored as given. */
  function ModuleRowAt(m: Value, index: nat): (r: ModuleRow)
    ensures IsNonEmptyString(Prop(m, "title")) ==> Prop(m, "title") == Some(VStr(r.title))
    ensures IsNonEmptyString(Prop(m, "content")) ==> Prop(m, "content") == Some(VStr(r.content))
    ensures OrderAccepted(Prop(m, "order")) ==> OrderFollows(Prop(m, "order"), index, r.order) && r.order >= 1
    ensures r.videoUrl.Some? ==> r.videoUrl.value != "" && HasTrimmedEnds(r.videoUrl.value)
  {
    ModuleRow(StringOf(Prop(m, "title")), StringOf(Prop(m, "content")), StoredVideoUrl(Prop(m, "video_url")),
              OrderAt(Prop(m, "order"), index))
  }

  /** `modules.map(..)`: one row per module, in order, each built from its module and index. */
  function ModuleRows(ms: seq<Value>): (r: seq<ModuleRow>)
    ensures |r| == |ms|
    ensures forall k :: 0 <= k < |ms| ==> r[k] == ModuleRowAt(ms[k], k)
  {
    seq(|ms|, k requires 0 <= k < |ms| => ModuleRowAt(ms[k], k))
  }

  /** The lesson row written for lesson number `index`, with one module row per module. */
  function LessonRowAt(lesson: Value, index: nat): (r: LessonRow)
    ensures IsNonEmptyString(Prop(lesson, "title")) ==> Prop(lesson, "title") == Some(VStr(r.title))
    ensures OrderAccepted(Prop(lesson, "order")) ==> OrderFollows(Prop(lesson, "order"), index, r.order) && r.order >= 1
    ensures |r.modules| == |ElementsOf(Prop(lesson, "modules"))|
  {
    LessonRow(StringOf(Prop(lesson, "title")), OrderAt(Prop(lesson, "order"), index),
              ModuleRows(ElementsOf(Prop(lesson, "modules"))))
  }

  /** `lessons.map(..)`: one row per lesson, in order. */
  function LessonRows(ls: seq<Value>): (r: seq<LessonRow>)
    ensures |r| == |ls|
    ensures forall k :: 0 <= k < |ls| ==> r[k] == LessonRowAt(ls[k], k)
  {
    seq(|ls|, k requires 0 <= k < |ls| => LessonRowAt(ls[k], k))
  }

  /** The course row written for a submission whose thumbnail is at `thumbnailUrl`, with one
      lesson row per lesson. */
  function CourseRowOf(submission: Value, thumbnailUrl: string): (r: CourseRow)
    ensures r.thumbnail == thumbnailUrl
    ensures IsNumberAtLeastOne(Prop(submission, "price")) ==>
              Prop(submission, "price") == Some(VNum(r.price)) && r.price >= 1
    ensures |r.lessons| == |ElementsOf(Prop(submission, "lessons"))|
  {
    CourseRow(StringOf(Prop(submission, "title")), StringOf(Prop(submission, "description")),
              NumberOf(Prop(submission, "price")), thumbnailUrl,
              LessonRows(ElementsOf(Prop(submission, "lessons"))))
  }

  /** Row `order` stands for the position `index` of a value whose `order` is `order`: the
      given number, or else the position counted from 1. */
  predicate OrderFollows(order: Option<Value>, index: nat, stored: int) {
    if order.None? then stored == index + 1 else order == Some(VNum(stored))
  }

  /** Row `row` is module number `index` as written: its title and content, its order, and
      its video URL trimmed, or `null` when the URL is absent or blank. */
  predicate ModuleRowFollows(m: Value, index: nat, row: ModuleRow) {
    && Prop(m, "title") == Some(VStr(row.title))
    && Prop(m, "content") == Some(VStr(row.content))
    && OrderFollows(Prop(m, "order"), index, row.order)
    && (Prop(m, "video_url").None? ==> row.videoUrl.None?)
    && (Prop(m, "video_url").Some? ==>
          Prop(m, "video_url").value.VStr? && row.videoUrl == TrimmedOrNull(Prop(m, "video_url").value.s))
  }

  /** Row `row` is lesson number `index` as written: its title, its order, and one module
      row per module, in order. */
  predicate LessonRowFollows(lesson: Value, index: nat, row: LessonRow) {
    var ms := Prop(lesson, "modules");
    && Prop(lesson, "title") == Some(VStr(row.title))
    && OrderFollows(Prop(lesson, "order"), index, row.order)
    && ms.Some? && ms.value.VArr? && |row.modules| == |ms.value.elems|
    && forall j :: 0 <= j < |row.modules| ==> ModuleRowFollows(ms.value.elems[j], j, row.modules[j])
  }

  /** A module row follows its module, for a module that keeps the module rules. */
  lemma ModuleRowFollowsModule(m: Value, index: nat)
    requires ModuleRules(m)
    ensures ModuleRowFollows(m, index, ModuleRowAt(m, index))
    ensures ModuleRowAt(m, index).order >= 1
  {
  }

  /** A lesson row follows its lesson, for a lesson that keeps the lesson rules; its order
      and its modules' orders are at least 1. */
  lemma LessonRowFollowsLesson(lesson: Value, index: nat)
    requires LessonRules(lesson)
    ensures LessonRowFollows(lesson, index, LessonRowAt(lesson, index))
    ensures LessonRowAt(lesson, index).order >= 1
    ensures forall j :: 0 <= j < |LessonRowAt(lesson, index).modules| ==> LessonRowAt(lesson, index).modules[j].order >= 1
  {
    var ms := Prop(lesson, "modules").value.elems;
    forall j | 0 <= j < |ms|
      ensures ModuleRowFollows(ms[j], j, ModuleRowAt(ms[j], j)) && ModuleRowAt(ms[j], j).order >= 1
    {
      ModuleRowFollowsModule(ms[j], j);
    }
  }

  /** The written course follows a submission that passed validation (the rules of
      `CourseRules`, equivalent to validation by `ValidCourseIff`): its title, description
      and price, the thumbnail's public URL, and one lesson row per lesson, in order, each
      following its lesson. */
  lemma CourseRowFollowsSubmission(submission: Value, thumbnailUrl: string)
    requires CourseRules(submission)
    ensures var row := CourseRowOf(submission, thumbnailUrl);
            var ls := Prop(submission, "lessons");
            && Prop(submission, "title") == Some(VStr(row.title))
            && Prop(submission, "description") == Some(VStr(row.description))
            && Prop(submission, "price") == Some(VNum(row.price)) && row.price >= 1
            && row.thumbnail == thumbnailUrl
            && ls.Some? && ls.value.VArr? && |row.lessons| == |ls.value.elems|
            && forall i :: 0 <= i < |row.lessons| ==> LessonRowFollows(ls.value.elems[i], i, row.lessons[i])
  {
    var ls := Prop(submission, "lessons").value.elems;
    forall i | 0 <= i < |ls|
      ensures LessonRowFollows(ls[i], i, LessonRowAt(ls[i], i))
    {
      LessonRowFollowsLesson(ls[i], i);
    }
  }

  /** Every lesson row and every module row written for a submission that passed validation
      has an order of at least 1. */
  lemma StoredOrdersPositive(submission: Value, thumbnailUrl: string)
    requires CourseRules(submission)
    ensures var row := CourseRowOf(submission, thumbnailUrl);
            forall i, j :: 0 <= i < |row.lessons| && 0 <= j < |row.lessons[i].modules| ==>
              row.lessons[i].order >= 1 && row.lessons[i].modules[j].order >= 1
  {
    var ls := Prop(submission, "lessons").value.elems;
    forall i | 0 <= i < |ls|
      ensures LessonRowAt(ls[i], i).order >= 1
      ensures forall j :: 0 <= j < |LessonRowAt(ls[i], i).modules| ==> LessonRowAt(ls[i], i).modules[j].order >= 1
    {
      LessonRowFollowsLesson(ls[i], i);
    }
  }

  /** The number of module rows of a list of lesson rows. */
  function ModuleRowCount(rows: seq<LessonRow>): nat {
    if rows == [] then 0 else ModuleRowCount(rows[..|rows| - 1]) + |rows[|rows| - 1].modules|
  }

  /** The number of modules of a list of lessons. */
  function ModuleCount(ls: seq<Value>): nat {
    if ls == [] then 0 else ModuleCount(ls[..|ls| - 1]) + |ElementsOf(Prop(ls[|ls| - 1], "modules"))|
  }

  /** The write creates exactly as many modules as the submission holds. */
  lemma {:induction false} ModuleCountPreserved(ls: seq<Value>)
    ensures ModuleRowCount(LessonRows(ls)) == ModuleCount(ls)
  {
    if ls != [] {
      var n := |ls| - 1;
      ModuleCountPreserved(ls[..n]);
      assert LessonRows(ls)[..n] == LessonRows(ls[..n]);
    }
  }

  /** Where the pipeline stops before it changes anything outside the handler. */
  datatype Stage =
    | Denied                                  // no admin session
    | MissingFields                           // `thumbnail` or `lessons` falsy
    | BadJson                                 // `JSON.parse` throws
    | Invalid(issues: seq<Issue>)             // the submission fails the schema
    | NotAFile                                // the thumbnail is text: `thumbnail.name` throws
    | Ready(submission: Value, file: File)    // go on to the upload

  /** `JSON.parse(lessonsJson)` and the submission built from it. */
  function ParsedSubmission(form: FormData, parseJson: string -> Option<Value>,
                            toNumber: string -> Option<int>): (r: Option<Value>)
    requires Truthy(Get(form, "lessons"))
    ensures r.None? <==> parseJson(TextOf(Get(form, "lessons").value)).None?
    ensures r.Some? ==>
              && Prop(r.value, "lessons") == parseJson(TextOf(Get(form, "lessons").value))
              && Prop(r.value, "title") == Some(AsValue(Get(form, "title")))
              && Prop(r.value, "description") == Some(AsValue(Get(form, "description")))
              && Prop(r.value, "price") == Some(NumberValue(Get(form, "price"), toNumber))
  {
    match parseJson(TextOf(Get(form, "lessons").value))
    case None => None
    case Some(lessons) => Some(Submission(form, lessons, toNumber))
  }

  /** The checks of `POST /api/course` up to the upload, in the handler's order. They only
      read the session and the form, so the handler's outcome up to that point is a function
      of those. */
  function CourseStage(session: Option<Session>, form: FormData, parseJson: string -> Option<Value>,
                       toNumber: string -> Option<int>): (r: Stage)
    ensures r == Denied <==> !IsAdmin(session)
    ensures r == MissingFields <==>
              IsAdmin(session) && (!Truthy(Get(form, "thumbnail")) || !Truthy(Get(form, "lessons")))
    ensures r == BadJson <==>
              && IsAdmin(session) && Truthy(Get(form, "thumbnail")) && Truthy(Get(form, "lessons"))
              && ParsedSubmission(form, parseJson, toNumber).None?
    ensures r.Ready? ==>
              && Get(form, "thumbnail") == Some(Blob(r.file))
              && ParsedSubmission(form, parseJson, toNumber) == Some(r.submission)
  {
    if !IsAdmin(session) then Denied
    else if !Truthy(Get(form, "thumbnail")) || !Truthy(Get(form, "lessons")) then MissingFields
    else match ParsedSubmission(form, parseJson, toNumber)
      case None => BadJson
      case Some(submission) =>
        if CourseIssues(submission) != [] then Invalid(CourseIssues(submission))
        else match Get(form, "thumbnail").value
          case Text(_) => NotAFile
          case Blob(file) => Ready(submission, file)
  }

  /** An admin request whose thumbnail is a file and whose lessons parse into a submission
      that passes validation reaches the upload with that submission and that file. */
  lemma StageReady(session: Option<Session>, form: FormData, parseJson: string -> Option<Value>,
                   toNumber: string -> Option<int>, submission: Value, file: File)
    requires IsAdmin(session) && Get(form, "thumbnail") == Some(Blob(file)) && Truthy(Get(form, "lessons"))
    requires ParsedSubmission(form, parseJson, toNumber) == Some(submission)
    requires ValidCourse(submission)
    ensures CourseStage(session, form, parseJson, toNumber) == Ready(submission, file)
  {
  }

  /** What the later stages mean: `Invalid` carries the issues of the parsed submission,
      `NotAFile` and `Ready` are reached only by a valid submission, with a text thumbnail
      and a file thumbnail respectively. */
  lemma StageValidation(session: Option<Session>, form: FormData, parseJson: string -> Option<Value>,
                        toNumber: string -> Option<int>)
    ensures var r := CourseStage(session, form, parseJson, toNumber);
            && (r.Invalid? ==>
                  && ParsedSubmission(form, parseJson, toNumber).Some?
                  && r.issues == CourseIssues(ParsedSubmission(form, parseJson, toNumber).value) != [])
            && (r == NotAFile ==>
                  && ParsedSubmission(form, parseJson, toNumber).Some?
                  && ValidCourse(ParsedSubmission(form, parseJson, toNumber).value)
                  && Get(form, "thumbnail").Some? && Get(form, "thumbnail").value.Text?)
            && (r.Ready? ==> ValidCourse(r.submission))
  {
  }

  /** A price below 1, or one that is not a number, never reaches the upload. */
  lemma LowPriceNeverUploads(session: Option<Session>, form: FormData, parseJson: string -> Option<Value>,
                             toNumber: string -> Option<int>)
    requires var p := NumberValue(Get(form, "price"), toNumber); p.VNaN? || p.n < 1
    ensures !CourseStage(session, form, parseJson, toNumber).Ready?
  {
    var stage := CourseStage(session, form, parseJson, toNumber);
    if stage.Ready? {
      StageValidation(session, form, parseJson, toNumber);
      ValidCourseIff(stage.submission);
    }
  }

  /** A submission that passed validation has an array of lessons, so the `Array.isArray`
      check the handler makes after the upload never fails. */
  lemma ReadyLessonsAreArray(session: Option<Session>, form: FormData, parseJson: string -> Option<Value>,
                             toNumber: string -> Option<int>)
    requires CourseStage(session, form, parseJson, toNumber).Ready?
    ensures var lessons := Prop(CourseStage(session, form, parseJson, toNumber).submission, "lessons");
            lessons.Some? && lessons.value.VArr? && |lessons.value.elems| >= 1
  {
    StageValidation(session, form, parseJson, toNumber);
    ValidCourseIff(CourseStage(session, form, parseJson, toNumber).submission);
  }

  /** The answer of a pipeline that stops before the upload: 403 for a non-admin, 400 for
      what the client can correct (missing fields, issues, which it carries), 500 for a
      thrown exception. */
  function EarlyResponse(stage: Stage): (r: Response)
    requires !stage.Ready?
    ensures r.status == 403 <==> stage.Denied?
    ensures r.status == 400 <==> stage.MissingFields? || stage.Invalid?
    ensures r.status == 500 <==> stage.BadJson? || stage.NotAFile?
    ensures stage.Invalid? ==> r.body == ValidationError(stage.issues)
  {
    match stage
    case Denied => Response(403, Message("Unauthorized: Only admin users can add course"))
    case MissingFields => Response(400, Error("Thumbnail and lessons are required"))
    case BadJson => Response(500, Failure("Course creation failed"))
    case Invalid(issues) => Response(400, ValidationError(issues))
    case NotAFile => Response(500, Failure("Course creation failed"))
  }

  /** `POST /api/course`. `nowMs` is `Date.now()`, `parseJson` stands for `JSON.parse`
      (`None` when it throws), `toNumber` for `Number`, `publicUrl` for `getPublicUrl`,
      `uploadFault` for a failure of the storage provider and `writeFails` for a failure of
      the database. A non-admin is turned away before the form is read; every other stop
      before `Ready` reads the form and nothing more; an upload that is refused answers 500
      and writes no row; a failed write answers 500 and leaves the uploaded object in the
      bucket, as nothing deletes it. */
  method Post(env: Env, session: Option<Session>, form: FormData, nowMs: nat,
              parseJson: string -> Option<Value>, toNumber: string -> Option<int>,
              publicUrl: string -> string, uploadFault: Option<string>, writeFails: bool)
    returns (resp: Response)
    modifies env`bucket, env`courses, env`log
    ensures var stage := CourseStage(session, form, parseJson, toNumber);
            !stage.Ready? ==>
              && resp == EarlyResponse(stage)
              && env.log == old(env.log) + (if stage.Denied? then [] else [ReadForm])
              && env.bucket == old(env.bucket) && env.courses == old(env.courses)
    ensures var stage := CourseStage(session, form, parseJson, toNumber);
            stage.Ready? ==>
              var key := TimestampedName(nowMs, stage.file.name);
              var uploadError := UploadResult(old(env.bucket), key, false, uploadFault);
              if uploadError.Some? then
                && resp == Response(500, UploadFailed(uploadError.value))
                && env.log == old(env.log) + [ReadForm] + [StorageUpload(key)]
                && env.bucket == old(env.bucket) && env.courses == old(env.courses)
              else
                var row := CourseRowOf(stage.submission, publicUrl(key));
                && env.bucket == old(env.bucket)[key := stage.file.bytes]
                && env.log == old(env.log) + [ReadForm] + [StorageUpload(key)] + [CreateCourse]
                && if writeFails then
                     resp == Response(500, Failure("Course creation failed")) && env.courses == old(env.courses)
                   else
                     resp == Response(201, CourseCreated(row, "Course created successfully"))
                     && env.courses == old(env.courses) + [row]
  {
    var stage := CourseStage(session, form, parseJson, toNumber);
    if stage.Denied? {
      return EarlyResponse(stage);
    }
    env.Record(ReadForm);
    if !stage.Ready? {
      return EarlyResponse(stage);
    }
    var key := TimestampedName(nowMs, stage.file.name);
    resp := Store(env, stage.submission, key, stage.file.bytes, publicUrl, uploadFault, writeFails);
  }

  /** The second half of `POST /api/course`, for a valid submission: upload the thumbnail's
      content under `key` without overwriting, then write the course with the public URL of
      `key`. */
  method Store(env: Env, submission: Value, key: string, content: seq<byte>, publicUrl: string -> string,
               uploadFault: Option<string>, writeFails: bool) returns (resp: Response)
    modifies env`bucket, env`courses, env`log
    ensures UploadResult(old(env.bucket), key, false, uploadFault).Some? ==>
              && resp == Response(500, UploadFailed(UploadResult(old(env.bucket), key, false, uploadFault).value))
              && env.log == old(env.log) + [StorageUpload(key)]
              && env.bucket == old(env.bucket) && env.courses == old(env.courses)
    ensures UploadResult(old(env.bucket), key, false, uploadFault).None? ==>
              && env.bucket == old(env.bucket)[key := content]
              && env.log == old(env.log) + [StorageUpload(key)] + [CreateCourse]
              && (writeFails ==> resp == Response(500, Failure("Course creation failed"))
                                 && env.courses == old(env.courses))
              && (!writeFails ==> resp == Response(201, CourseCreated(CourseRowOf(submission, publicUrl(key)),
                                                                       "Course created successfully"))
                                  && env.courses == old(env.courses) + [CourseRowOf(submission, publicUrl(key))])
  {
    var uploadError := env.Upload(key, content, false, uploadFault);
    if uploadError.Some? {
      return Response(500, UploadFailed(uploadError.value));
    }
    var url := publicUrl(key);
    var row := CourseRowOf(submission, url);
    var ok := env.InsertCourse(row, writeFails);
    if !ok {
      return Response(500, Failure("Course creation failed"));
    }
    resp := Response(201, CourseCreated(row, "Course created successfully"));
  }

  /** `GET /api/course`: courses searched by title, newest first. */
  function ListCourses(request: ListRequest, toNumber: string -> Option<int>, total: nat): (r: ListPlan)
    ensures r.count == Contains("title", SearchText(request.search)) == r.find.filter
    ensures r.find.orderBy == "createAt"
  {
    Plan(request, toNumber, "title", "createAt", total)
  }
}
