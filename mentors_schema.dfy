/** The mentor submission schema: a required non-empty `name` and two optional strings. */
module MentorsSchema {
  import opened JsValues
  import opened Zod

  /** `createMentorsSchema`. */
  function MentorIssues(v: Value): (r: seq<Issue>)
    ensures !v.VObj? ==> r == Fail(InvalidType)
  {
    if v.VObj? then
      Field("name", NonEmptyString(Prop(v, "name"), "Fullname required"))
      + Field("company", OptionalString(Prop(v, "company")))
      + Field("specialization", OptionalString(Prop(v, "specialization")))
    else
      Fail(InvalidType)
  }

  predicate ValidMentor(v: Value) {
    MentorIssues(v) == []
  }

  predicate AbsentOrString(v: Option<Value>) {
    v.None? || v.value.VStr?
  }

  /** A mentor is valid exactly when `name` is a non-empty string and `company` and
      `specialization` are each absent or a string, the empty string included. */
  lemma ValidMentorIff(v: Value)
    ensures ValidMentor(v) <==> v.VObj? && IsNonEmptyString(Prop(v, "name"))
                                && AbsentOrString(Prop(v, "company"))
                                && AbsentOrString(Prop(v, "specialization"))
  {
  }

  /** Every issue of a mentor object is reported under one of the keys of the schema. */
  lemma MentorIssuesUnderKeys(v: Value)
    requires v.VObj?
    ensures ReportedUnder(MentorIssues(v), {"name", "company", "specialization"})
  {
    var iname := NonEmptyString(Prop(v, "name"), "Fullname required");
    var icompany := OptionalString(Prop(v, "company"));
    var ispecialization := OptionalString(Prop(v, "specialization"));
    var keys := {"name", "company", "specialization"};
    FieldReportedUnder("name", iname, keys);
    FieldReportedUnder("company", icompany, keys);
    FieldReportedUnder("specialization", ispecialization, keys);
    ReportedUnderConcat(Field("name", iname), Field("company", icompany), keys);
    ReportedUnderConcat(Field("name", iname) + Field("company", icompany), Field("specialization", ispecialization), keys);
  }

  /** Only `name` is required: `{name: "x"}` is valid. */
  lemma NameAloneIsValid()
    ensures ValidMentor(VObj(map["name" := VStr("x")]))
  {
  }

  /** A `null` company is neither absent nor a string: the schema reports it. */
  lemma NullCompanyReported(v: Value)
    requires v.VObj? && Prop(v, "company") == Some(VNull)
    ensures Issue([Key("company")], InvalidType) in MentorIssues(v)
  {
    assert Field("company", OptionalString(Prop(v, "company")))[0] == Issue([Key("company")], InvalidType);
  }
}
