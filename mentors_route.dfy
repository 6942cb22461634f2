/** `POST /api/mentors` and `GET /api/mentors`. The `POST` handler authorizes, reads the form,
    requires a photo, validates the name and the optional fields, uploads the photo under
    `mentors/` with a timestamped name, writes the mentor and responds. */
module MentorsRoute {
  import opened JsValues
  import opened Zod
  import opened MentorsSchema
  import opened ObjectNames
  import opened Backend
  import opened Responses
  import opened Auth
  import opened Listing

  /** `value ? String(value) : null`: the stored form of an optional text field. */
  function NormalizedOptional(f: Option<FormValue>): (r: Option<string>)
    ensures r.None? <==> !Truthy(f)
    ensures r.Some? ==> r.value == TextOf(f.value) && r.value != ""
  {
    if Truthy(f) then Some(TextOf(f.value)) else None
  }

  /** The value the handler validates, as written: `{ name, company, specialization }` with
      the raw form values, so a field the form lacks is `null`, not `undefined`. */
  function ValidationInputAsWritten(form: FormData): (r: Value)
    ensures Prop(r, "name") == Some(AsValue(Get(form, "name")))
    ensures Prop(r, "company") == Some(AsValue(Get(form, "company")))
    ensures Prop(r, "specialization") == Some(AsValue(Get(form, "specialization")))
  {
    VObj(map["name" := AsValue(Get(form, "name")), "company" := AsValue(Get(form, "company")),
             "specialization" := AsValue(Get(form, "specialization"))])
  }

  /** `{ [key]: value }` for a truthy field, `{}` otherwise. */
  function OptionalEntry(key: string, f: Option<FormValue>): (r: map<string, Value>)
    ensures key in r <==> Truthy(f)
    ensures r.Keys <= {key}
    ensures key in r ==> r[key] == AsValue(f)
  {
    if Truthy(f) then map[key := AsValue(f)] else map[]
  }

  /** The value the handler is evidently meant to validate: an optional field that the form
      lacks, or leaves empty, is left out (`undefined`), exactly the fields that the handler
      stores as `null`. */
  function ValidationInput(form: FormData): (r: Value)
    ensures r.VObj?
    ensures Prop(r, "name") == Some(AsValue(Get(form, "name")))
    ensures Prop(r, "company").Some? <==> Truthy(Get(form, "company"))
    ensures Prop(r, "company").Some? ==> Prop(r, "company").value == AsValue(Get(form, "company"))
    ensures Prop(r, "specialization").Some? <==> Truthy(Get(form, "specialization"))
    ensures Prop(r, "specialization").Some? ==>
              Prop(r, "specialization").value == AsValue(Get(form, "specialization"))
  {
    VObj(map["name" := AsValue(Get(form, "name"))]
         + OptionalEntry("company", Get(form, "company"))
         + OptionalEntry("specialization", Get(form, "specialization")))
  }

  /** A field the handler validates: a text, or no field at all. */
  predicate TextOrAbsent(f: Option<FormValue>) {
    f.None? || f.value.Text?
  }

  /** With the corrected input, a form passes validation exactly when its `name` is a
      non-empty text and each optional field is absent, empty or a text. */
  lemma ValidationInputIff(form: FormData)
    ensures ValidMentor(ValidationInput(form)) <==>
              && Get(form, "name").Some? && Get(form, "name").value.Text? && Get(form, "name").value.text != ""
              && TextOrAbsent(Get(form, "company")) && TextOrAbsent(Get(form, "specialization"))
  {
    ValidMentorIff(ValidationInput(form));
  }

  /** Where both optional fields are filled in, the corrected input is the one written. */
  lemma ValidationInputAgrees(form: FormData)
    requires Truthy(Get(form, "company")) && Truthy(Get(form, "specialization"))
    ensures ValidationInput(form) == ValidationInputAsWritten(form)
  {
    var r, w := ValidationInput(form), ValidationInputAsWritten(form);
    assert r.props.Keys == w.props.Keys;
  }

  /** The form the admin page sends (`onSubmit` of the mentors page): `name` and the photo
      always, `company` and `specialization` only when they are not empty. */
  function ClientForm(name: string, company: string, specialization: string, photo: File): (r: FormData)
    ensures Get(r, "name") == Some(Text(name)) && Get(r, "photo_url") == Some(Blob(photo))
    ensures "company" in r <==> company != ""
    ensures "company" in r ==> r["company"] == Text(company)
    ensures "specialization" in r <==> specialization != ""
    ensures "specialization" in r ==> r["specialization"] == Text(specialization)
  {
    map["name" := Text(name), "photo_url" := Blob(photo)]
    + (if company != "" then map["company" := Text(company)] else map[])
    + (if specialization != "" then map["specialization" := Text(specialization)] else map[])
  }

  /** As written, every mentor the admin page sends without a company fails validation: the
      missing field is read as `null`, which `z.string().optional()` rejects. */
  lemma ClientWithoutCompanyRejectedAsWritten(name: string, specialization: string, photo: File)
    ensures var v := ValidationInputAsWritten(ClientForm(name, "", specialization, photo));
            && Issue([Key("company")], InvalidType) in MentorIssues(v)
            && !ValidMentor(v)
  {
    var v := ValidationInputAsWritten(ClientForm(name, "", specialization, photo));
    NullCompanyReported(v);
  }

  /** With the corrected input, every mentor the admin page sends with a name passes
      validation, whether or not the optional fields are filled in. */
  lemma ClientFormAccepted(name: string, company: string, specialization: string, photo: File)
    requires name != ""
    ensures ValidMentor(ValidationInput(ClientForm(name, company, specialization, photo)))
  {
    ValidationInputIff(ClientForm(name, company, specialization, photo));
  }

  /** Where the pipeline stops before it changes anything outside the handler. */
  datatype Stage =
    | Denied                      // no admin session
    | MissingPhoto                // `photo_url` falsy
    | Invalid(issues: seq<Issue>) // the fields fail the schema
    | NotAFile                    // the photo is text: `photoUrl.name` throws
    | Ready(file: File)           // go on to the upload

  /** The checks of `POST /api/mentors` up to the upload, in the handler's order. */
  function MentorStage(session: Option<Session>, form: FormData): (r: Stage)
    ensures r == Denied <==> !IsAdmin(session)
    ensures r == MissingPhoto <==> IsAdmin(session) && !Truthy(Get(form, "photo_url"))
    ensures r.Invalid? <==>
              IsAdmin(session) && Truthy(Get(form, "photo_url")) && !ValidMentor(ValidationInput(form))
    ensures r.Invalid? ==> r.issues == MentorIssues(ValidationInput(form)) != []
    ensures r == NotAFile <==>
              && IsAdmin(session) && Truthy(Get(form, "photo_url")) && ValidMentor(ValidationInput(form))
              && Get(form, "photo_url").value.Text?
    ensures r.Ready? <==>
              && IsAdmin(session) && Get(form, "photo_url").Some? && Get(form, "photo_url").value.Blob?
              && ValidMentor(ValidationInput(form))
    ensures r.Ready? ==> Get(form, "photo_url") == Some(Blob(r.file))
  {
    if !IsAdmin(session) then Denied
    else if !Truthy(Get(form, "photo_url")) then MissingPhoto
    else if MentorIssues(ValidationInput(form)) != [] then Invalid(MentorIssues(ValidationInput(form)))
    else match Get(form, "photo_url").value
      case Text(_) => NotAFile
      case Blob(file) => Ready(file)
  }

  /** An empty `name` never reaches the upload; its issue is reported under `name`. */
  lemma EmptyNameNeverUploads(session: Option<Session>, form: FormData)
    requires IsAdmin(session) && Truthy(Get(form, "photo_url"))
    requires Get(form, "name") == Some(Text(""))
    ensures MentorStage(session, form) == Invalid(MentorIssues(ValidationInput(form)))
    ensures Issue([Key("name")], TooSmall(Some("Fullname required"))) in MentorIssues(ValidationInput(form))
  {
    var v := ValidationInput(form);
    ValidationInputIff(form);
    assert Field("name", NonEmptyString(Prop(v, "name"), "Fullname required"))[0]
        == Issue([Key("name")], TooSmall(Some("Fullname required")));
  }

  /** The text of the `name` field; a form that passed validation has one. */
  function NameOf(form: FormData): (r: string)
    ensures Get(form, "name").Some? && Get(form, "name").value.Text? ==> r == Get(form, "name").value.text
    ensures r != "" ==> Get(form, "name") == Some(Text(r))
  {
    match Get(form, "name")
    case Some(Text(s)) => s
    case _ => ""
  }

  /** The mentor row written for `form`, with its photo at `photoUrl`: an optional field is
      `null` exactly when the form lacks it or leaves it empty. */
  function MentorRowOf(form: FormData, photoUrl: string): (r: MentorRow)
    ensures r.photoUrl == photoUrl
    ensures r.company.None? <==> !Truthy(Get(form, "company"))
    ensures r.company.Some? ==> r.company.value == TextOf(Get(form, "company").value) != ""
    ensures r.specialization.None? <==> !Truthy(Get(form, "specialization"))
    ensures r.specialization.Some? ==> r.specialization.value == TextOf(Get(form, "specialization").value) != ""
  {
    MentorRow(NameOf(form), NormalizedOptional(Get(form, "company")),
              NormalizedOptional(Get(form, "specialization")), photoUrl)
  }

  /** The written mentor follows a form that passed validation: its name is the form's
      non-empty name, each optional field is `null` exactly when the form lacks it or leaves
      it empty and is copied otherwise, and the photo is at `photoUrl`. */
  lemma MentorRowFollowsForm(form: FormData, photoUrl: string)
    requires ValidMentor(ValidationInput(form))
    ensures var row := MentorRowOf(form, photoUrl);
            && Get(form, "name") == Some(Text(row.name)) && row.name != ""
            && (row.company.None? <==> !Truthy(Get(form, "company")))
            && (row.company.Some? ==> Get(form, "company") == Some(Text(row.company.value)))
            && (row.specialization.None? <==> !Truthy(Get(form, "specialization")))
            && (row.specialization.Some? ==> Get(form, "specialization") == Some(Text(row.specialization.value)))
            && row.photoUrl == photoUrl
  {
    ValidationInputIff(form);
  }

  /** `POST /api/mentors`. `nowMs` is `Date.now()`, `publicUrl` stands for `getPublicUrl`,
      `uploadFault` for a failure of the storage provider and `writeFails` for a failure of
      the database. A non-admin is turned away before the form is read; every other stop
      before `Ready` reads the form and nothing more; a refused upload answers 500 and
      writes no row; a failed write answers 500 and leaves the photo in the bucket. */
  method Post(env: Env, session: Option<Session>, form: FormData, nowMs: nat, publicUrl: string -> string,
              uploadFault: Option<string>, writeFails: bool) returns (resp: Response)
    modifies env`bucket, env`mentors, env`log
    ensures var stage := MentorStage(session, form);
            !stage.Ready? ==>
              && resp == EarlyResponse(stage)
              && env.log == old(env.log) + (if stage.Denied? then [] else [ReadForm])
              && env.bucket == old(env.bucket) && env.mentors == old(env.mentors)
    ensures var stage := MentorStage(session, form);
            stage.Ready? ==>
              var path := MentorPhotoPath(nowMs, stage.file.name);
              var uploadError := UploadResult(old(env.bucket), path, false, uploadFault);
              if uploadError.Some? then
                && resp == Response(500, UploadFailed(uploadError.value))
                && env.log == old(env.log) + [ReadForm] + [StorageUpload(path)]
                && env.bucket == old(env.bucket) && env.mentors == old(env.mentors)
              else
                var row := MentorRowOf(form, publicUrl(path));
                && env.bucket == old(env.bucket)[path := stage.file.bytes]
                && env.log == old(env.log) + [ReadForm] + [StorageUpload(path)] + [CreateMentor]
                && if writeFails then
                     resp == Response(500, Error("Internal Server Error")) && env.mentors == old(env.mentors)
                   else
                     resp == Response(201, MentorCreated(row, "Mentor created successfully"))
                     && env.mentors == old(env.mentors) + [row]
  {
    var stage := MentorStage(session, form);
    if stage.Denied? {
      return EarlyResponse(stage);
    }
    env.Record(ReadForm);
    if !stage.Ready? {
      return EarlyResponse(stage);
    }
    var path := MentorPhotoPath(nowMs, stage.file.name);
    resp := Store(env, form, path, stage.file.bytes, publicUrl, uploadFault, writeFails);
  }

  /** The answer of a pipeline that stops before the upload: 403 for a non-admin, 400 for a
      missing photo or invalid fields (with the issues), 500 for a thrown exception. */
  function EarlyResponse(stage: Stage): (r: Response)
    requires !stage.Ready?
    ensures r.status == 403 <==> stage.Denied?
    ensures r.status == 400 <==> stage.MissingPhoto? || stage.Invalid?
    ensures r.status == 500 <==> stage.NotAFile?
    ensures stage.Invalid? ==> r.body == ValidationError(stage.issues)
  {
    match stage
    case Denied => Response(403, Message("Unauthorized: Only admin users can add mentors"))
    case MissingPhoto => Response(400, Error("Photo required"))
    case Invalid(issues) => Response(400, ValidationError(issues))
    case NotAFile => Response(500, Error("Internal Server Error"))
  }

  /** The second half of `POST /api/mentors`: upload the photo's content at `path` without
      overwriting, then write the mentor with the public URL of `path`. */
  method Store(env: Env, form: FormData, path: string, content: seq<byte>, publicUrl: string -> string,
               uploadFault: Option<string>, writeFails: bool) returns (resp: Response)
    modifies env`bucket, env`mentors, env`log
    ensures UploadResult(old(env.bucket), path, false, uploadFault).Some? ==>
              && resp == Response(500, UploadFailed(UploadResult(old(env.bucket), path, false, uploadFault).value))
              && env.log == old(env.log) + [StorageUpload(path)]
              && env.bucket == old(env.bucket) && env.mentors == old(env.mentors)
    ensures UploadResult(old(env.bucket), path, false, uploadFault).None? ==>
              && env.bucket == old(env.bucket)[path := content]
              && env.log == old(env.log) + [StorageUpload(path)] + [CreateMentor]
              && (writeFails ==> resp == Response(500, Error("Internal Server Error"))
                                 && env.mentors == old(env.mentors))
              && (!writeFails ==> resp == Response(201, MentorCreated(MentorRowOf(form, publicUrl(path)),
                                                                       "Mentor created successfully"))
                                  && env.mentors == old(env.mentors) + [MentorRowOf(form, publicUrl(path))])
  {
    var uploadError := env.Upload(path, content, false, uploadFault);
    if uploadError.Some? {
      return Response(500, UploadFailed(uploadError.value));
    }
    var url := publicUrl(path);
    var row := MentorRowOf(form, url);
    var ok := env.InsertMentor(row, writeFails);
    if !ok {
      return Response(500, Error("Internal Server Error"));
    }
    resp := Response(201, MentorCreated(row, "Mentor created successfully"));
  }

  /** `GET /api/mentors`: mentors searched by name, newest first. */
  function ListMentors(request: ListRequest, toNumber: string -> Option<int>, total: nat): (r: ListPlan)
    ensures r.count == Contains("name", SearchText(request.search)) == r.find.filter
    ensures r.find.orderBy == "created_at"
  {
    Plan(request, toNumber, "name", "created_at", total)
  }
}
