/** The course submission schema: a course holds lessons, a lesson holds modules. Each schema
    is the list of issues its value raises; the value is valid when that list is empty. */
module CourseSchema {
  import opened JsValues
  import opened Zod

  /** zod's `.url()` check. What it accepts is left open: every property below holds
      whatever this check accepts. */
  const IsUrl: string -> bool

  predicate OrderAccepted(v: Option<Value>) {
    v.None? || IsNumberAtLeastOne(v)
  }

  predicate VideoUrlAccepted(v: Option<Value>) {
    v.None? || (v.value.VStr? && (v.value.s == "" || IsUrl(v.value.s)))
  }

  /** `z.string().url("Video URL must be valid").optional().or(z.literal(""))`: the first
      option reports a string that is not a URL; the union accepts it anyway when it is `""`;
      a value neither option accepts is an invalid union. */
  function VideoUrlIssues(v: Option<Value>): (r: seq<Issue>)
    ensures r == [] <==> VideoUrlAccepted(v)
    ensures |r| <= 1
  {
    match v
    case None => []
    case Some(VStr(s)) =>
      if IsUrl(s) || s == "" then [] else Fail(InvalidString("Video URL must be valid"))
    case Some(_) => Fail(InvalidUnion)
  }

  /** `moduleSchema`. */
  function ModuleIssues(v: Value): (r: seq<Issue>)
    ensures !v.VObj? ==> r == Fail(InvalidType)
  {
    if v.VObj? then
      Field("title", NonEmptyString(Prop(v, "title"), "Module title is required"))
      + Field("content", NonEmptyString(Prop(v, "content"), "Module content is required"))
      + Field("order", OptionalNumberAtLeastOne(Prop(v, "order")))
      + Field("video_url", VideoUrlIssues(Prop(v, "video_url")))
    else
      Fail(InvalidType)
  }

  predicate ValidModule(v: Value) {
    ModuleIssues(v) == []
  }

  function EachModuleIssues(ms: seq<Value>): (r: seq<seq<Issue>>)
    ensures |r| == |ms|
  {
    seq(|ms|, k requires 0 <= k < |ms| => ModuleIssues(ms[k]))
  }

  /** `z.array(moduleSchema).min(1, "At least one module is required")`. */
  function ModulesIssues(v: Option<Value>): seq<Issue> {
    match v
    case Some(VArr(ms)) => NonEmptyArray(ms, "At least one module is required", EachModuleIssues(ms))
    case _ => Fail(InvalidType)
  }

  /** `lessonSchema`. */
  function LessonIssues(v: Value): (r: seq<Issue>)
    ensures !v.VObj? ==> r == Fail(InvalidType)
  {
    if v.VObj? then
      Field("title", NonEmptyString(Prop(v, "title"), "Lesson title is required"))
      + Field("order", OptionalNumberAtLeastOne(Prop(v, "order")))
      + Field("modules", ModulesIssues(Prop(v, "modules")))
    else
      Fail(InvalidType)
  }

  predicate ValidLesson(v: Value) {
    LessonIssues(v) == []
  }

  function EachLessonIssues(ls: seq<Value>): (r: seq<seq<Issue>>)
    ensures |r| == |ls|
  {
    seq(|ls|, k requires 0 <= k < |ls| => LessonIssues(ls[k]))
  }

  /** `z.array(lessonSchema).min(1, "At least one lesson is required")`. */
  function LessonsIssues(v: Option<Value>): seq<Issue> {
    match v
    case Some(VArr(ls)) => NonEmptyArray(ls, "At least one lesson is required", EachLessonIssues(ls))
    case _ => Fail(InvalidType)
  }

  /** `createCourseSchema`. */
  function CourseIssues(v: Value): (r: seq<Issue>)
    ensures !v.VObj? ==> r == Fail(InvalidType)
  {
    if v.VObj? then
      Field("title", NonEmptyString(Prop(v, "title"), "Course title is required"))
      + Field("description", NonEmptyString(Prop(v, "description"), "Course description is required"))
      + Field("price", NumberAtLeastOne(Prop(v, "price"), Some("Price must be at least Rp. 1")))
      + Field("lessons", LessonsIssues(Prop(v, "lessons")))
    else
      Fail(InvalidType)
  }

  predicate ValidCourse(v: Value) {
    CourseIssues(v) == []
  }

  /** The module rules, stated field by field. */
  predicate ModuleRules(v: Value) {
    && v.VObj?
    && IsNonEmptyString(Prop(v, "title"))
    && IsNonEmptyString(Prop(v, "content"))
    && OrderAccepted(Prop(v, "order"))
    && VideoUrlAccepted(Prop(v, "video_url"))
  }

  /** A non-empty array of modules that keep the module rules. */
  predicate NonEmptyModuleArray(v: Option<Value>) {
    && v.Some? && v.value.VArr? && |v.value.elems| >= 1
    && forall k :: 0 <= k < |v.value.elems| ==> ModuleRules(v.value.elems[k])
  }

  /** A non-empty array of lessons that keep the lesson rules. */
  predicate NonEmptyLessonArray(v: Option<Value>) {
    && v.Some? && v.value.VArr? && |v.value.elems| >= 1
    && forall k :: 0 <= k < |v.value.elems| ==> LessonRules(v.value.elems[k])
  }

  /** The lesson rules, stated field by field. */
  predicate LessonRules(v: Value) {
    && v.VObj?
    && IsNonEmptyString(Prop(v, "title"))
    && OrderAccepted(Prop(v, "order"))
    && NonEmptyModuleArray(Prop(v, "modules"))
  }

  /** The course rules, stated field by field. */
  predicate CourseRules(v: Value) {
    && v.VObj?
    && IsNonEmptyString(Prop(v, "title"))
    && IsNonEmptyString(Prop(v, "description"))
    && IsNumberAtLeastOne(Prop(v, "price"))
    && NonEmptyLessonArray(Prop(v, "lessons"))
  }

  /** A module is valid exactly when its title and content are non-empty strings, its order
      is absent or at least 1, and its video URL is absent, `""` or a URL. */
  lemma ValidModuleIff(v: Value)
    ensures ValidModule(v) <==> ModuleRules(v)
  {
  }

  /** A lesson is valid exactly when its title is non-empty, its order is absent or at
      least 1, and it has at least one module, every one of them valid. */
  lemma ValidLessonIff(v: Value)
    ensures ValidLesson(v) <==> LessonRules(v)
  {
    ModulesIssuesEmpty(Prop(v, "modules"));
  }

  lemma ModulesIssuesEmpty(m: Option<Value>)
    ensures ModulesIssues(m) == [] <==> NonEmptyModuleArray(m)
  {
    if m.Some? && m.value.VArr? {
      var ms := m.value.elems;
      var each := EachModuleIssues(ms);
      forall k | 0 <= k < |ms|
        ensures each[k] == [] <==> ModuleRules(ms[k])
      {
        assert each[k] == ModuleIssues(ms[k]);
        ValidModuleIff(ms[k]);
      }
      assert ModulesIssues(m) == NonEmptyArray(ms, "At least one module is required", each);
    }
  }

  /** A course is valid exactly when its title and description are non-empty, its price is
      at least 1, and it has at least one lesson, every one of them valid. */
  lemma ValidCourseIff(v: Value)
    ensures ValidCourse(v) <==> CourseRules(v)
  {
    LessonsIssuesEmpty(Prop(v, "lessons"));
  }

  lemma LessonsIssuesEmpty(l: Option<Value>)
    ensures LessonsIssues(l) == [] <==> NonEmptyLessonArray(l)
  {
    if l.Some? && l.value.VArr? {
      var ls := l.value.elems;
      forall k | 0 <= k < |ls|
        ensures EachLessonIssues(ls)[k] == [] <==> LessonRules(ls[k])
      {
        ValidLessonIff(ls[k]);
      }
    }
  }

  /** An issue of module `j` is an issue of the module array, under index `j`. */
  lemma ModuleIssueInModules(v: Option<Value>, j: nat, issue: Issue)
    requires v.Some? && v.value.VArr? && j < |v.value.elems|
    requires issue in ModuleIssues(v.value.elems[j])
    ensures Issue([Index(j)] + issue.path, issue.code) in ModulesIssues(v)
  {
    var ms := v.value.elems;
    ElementIssueReported(EachModuleIssues(ms), j, issue);
  }

  /** An issue of the module array is an issue of the lesson, under `modules`. */
  lemma ModulesIssueInLesson(lesson: Value, issue: Issue)
    requires lesson.VObj? && issue in ModulesIssues(Prop(lesson, "modules"))
    ensures Issue([Key("modules")] + issue.path, issue.code) in LessonIssues(lesson)
  {
    FieldIssueReported("modules", ModulesIssues(Prop(lesson, "modules")), issue);
  }

  /** An issue of lesson `i` is an issue of the lesson array, under index `i`. */
  lemma LessonIssueInLessons(v: Option<Value>, i: nat, issue: Issue)
    requires v.Some? && v.value.VArr? && i < |v.value.elems|
    requires issue in LessonIssues(v.value.elems[i])
    ensures Issue([Index(i)] + issue.path, issue.code) in LessonsIssues(v)
  {
    var ls := v.value.elems;
    ElementIssueReported(EachLessonIssues(ls), i, issue);
  }

  /** An issue of the lesson array is an issue of the course, under `lessons`. */
  lemma LessonsIssueInCourse(course: Value, issue: Issue)
    requires course.VObj? && issue in LessonsIssues(Prop(course, "lessons"))
    ensures Issue([Key("lessons")] + issue.path, issue.code) in CourseIssues(course)
  {
    FieldIssueReported("lessons", LessonsIssues(Prop(course, "lessons")), issue);
  }

  /** Every issue of module `j` of lesson `i` is reported by the course, under the path
      `lessons.i.modules.j`; so one invalid module makes its lesson and the course invalid. */
  lemma ModuleIssueReachesCourse(course: Value, i: nat, j: nat, issue: Issue)
    requires course.VObj? && Prop(course, "lessons").Some? && Prop(course, "lessons").value.VArr?
    requires i < |Prop(course, "lessons").value.elems|
    requires var lesson := Prop(course, "lessons").value.elems[i];
             lesson.VObj? && Prop(lesson, "modules").Some? && Prop(lesson, "modules").value.VArr?
             && j < |Prop(lesson, "modules").value.elems|
             && issue in ModuleIssues(Prop(lesson, "modules").value.elems[j])
    ensures Issue([Key("lessons"), Index(i), Key("modules"), Index(j)] + issue.path, issue.code)
            in CourseIssues(course)
    ensures !ValidCourse(course)
  {
    var lessons := Prop(course, "lessons");
    var lesson := lessons.value.elems[i];
    var p := issue.path;
    ModuleIssueInModules(Prop(lesson, "modules"), j, issue);
    var inLesson := Issue([Key("modules")] + ([Index(j)] + p), issue.code);
    ModulesIssueInLesson(lesson, Issue([Index(j)] + p, issue.code));
    assert inLesson in LessonIssues(lesson);
    var inLessons := Issue([Index(i)] + inLesson.path, issue.code);
    LessonIssueInLessons(lessons, i, inLesson);
    assert inLessons in LessonsIssues(lessons);
    LessonsIssueInCourse(course, inLessons);
    PathOfFour(Key("lessons"), Index(i), Key("modules"), Index(j), p);
  }

  /** Every issue of a module object is reported under one of the keys of `moduleSchema`. */
  lemma ModuleIssuesUnderKeys(v: Value)
    requires v.VObj?
    ensures ReportedUnder(ModuleIssues(v), {"title", "content", "order", "video_url"})
  {
    var ititle := NonEmptyString(Prop(v, "title"), "Module title is required");
    var icontent := NonEmptyString(Prop(v, "content"), "Module content is required");
    var iorder := OptionalNumberAtLeastOne(Prop(v, "order"));
    var ivideourl := VideoUrlIssues(Prop(v, "video_url"));
    var keys := {"title", "content", "order", "video_url"};
    FieldReportedUnder("title", ititle, keys);
    FieldReportedUnder("content", icontent, keys);
    FieldReportedUnder("order", iorder, keys);
    FieldReportedUnder("video_url", ivideourl, keys);
    ReportedUnderConcat(Field("title", ititle), Field("content", icontent), keys);
    ReportedUnderConcat(Field("title", ititle) + Field("content", icontent), Field("order", iorder), keys);
    ReportedUnderConcat(Field("title", ititle) + Field("content", icontent) + Field("order", iorder), Field("video_url", ivideourl), keys);
  }

  /** Every issue of a lesson object is reported under one of the keys of `lessonSchema`. */
  lemma LessonIssuesUnderKeys(v: Value)
    requires v.VObj?
    ensures ReportedUnder(LessonIssues(v), {"title", "order", "modules"})
  {
    var ititle := NonEmptyString(Prop(v, "title"), "Lesson title is required");
    var iorder := OptionalNumberAtLeastOne(Prop(v, "order"));
    var imodules := ModulesIssues(Prop(v, "modules"));
    var keys := {"title", "order", "modules"};
    FieldReportedUnder("title", ititle, keys);
    FieldReportedUnder("order", iorder, keys);
    FieldReportedUnder("modules", imodules, keys);
    ReportedUnderConcat(Field("title", ititle), Field("order", iorder), keys);
    ReportedUnderConcat(Field("title", ititle) + Field("order", iorder), Field("modules", imodules), keys);
  }

  /** Every issue of a course object is reported under one of the keys of `createCourseSchema`. */
  lemma CourseIssuesUnderKeys(v: Value)
    requires v.VObj?
    ensures ReportedUnder(CourseIssues(v), {"title", "description", "price", "lessons"})
  {
    var ititle := NonEmptyString(Prop(v, "title"), "Course title is required");
    var idescription := NonEmptyString(Prop(v, "description"), "Course description is required");
    var iprice := NumberAtLeastOne(Prop(v, "price"), Some("Price must be at least Rp. 1"));
    var ilessons := LessonsIssues(Prop(v, "lessons"));
    var keys := {"title", "description", "price", "lessons"};
    FieldReportedUnder("title", ititle, keys);
    FieldReportedUnder("description", idescription, keys);
    FieldReportedUnder("price", iprice, keys);
    FieldReportedUnder("lessons", ilessons, keys);
    ReportedUnderConcat(Field("title", ititle), Field("description", idescription), keys);
    ReportedUnderConcat(Field("title", ititle) + Field("description", idescription), Field("price", iprice), keys);
    ReportedUnderConcat(Field("title", ititle) + Field("description", idescription) + Field("price", iprice), Field("lessons", ilessons), keys);
  }

  lemma PathOfFour(a: Segment, b: Segment, c: Segment, d: Segment, p: seq<Segment>)
    ensures [a] + ([b] + ([c] + ([d] + p))) == [a, b, c, d] + p
  {
  }
}
