# SkillPlus admin back end, modelled in Dafny

SkillPlus is a small course platform built with Next.js. Admins create courses and mentors.
Users register and sign in. This project models the logic behind those actions and proves
properties of it:

- **`createCourseSchema`, `lessonSchema`, `moduleSchema` and `createMentorsSchema`.** These zod
  schemas are modelled as the list of issues a value raises. Each issue has a path and a code.
  A value is valid when its list is empty (`CourseSchema`, `MentorsSchema`, with `Zod` for the
  leaf schemas).
- **`POST /api/course` and `POST /api/mentors`.** Each is a method over an environment `Env`.
  `Env` holds the storage bucket, the course, mentor and user tables, and a log of the calls the
  handler makes to its collaborators. A pure stage function says where the pipeline stops before
  the upload, and the method's contract ties the response and the new state to it. The way a
  validated submission becomes course, lesson and module rows is a set of pure functions.
- **`GET /api/course` and `GET /api/mentors`.** This covers page/limit defaulting, `skip`,
  `totalPages = ceil(total / limit)`, and the filter shared by the count and the page query
  (`Listing`).
- **The credentials `authorize`, the `jwt` callback and the `session` callback.** The `jwt`
  callback updates `token.exp` in place, so the token is a class (`Auth`).
- **`POST /api/register`.** It checks the email, then the username, then hashes the password
  and inserts the user (`UsersRoute`).
- **The create-course page.** Its state is a class, with `addLesson`, `addModule`, the field
  edits and `onSubmit` (`CourseForm`).

Collaborators the code calls but does not contain become parameters:
- `JSON.parse`, `JSON.stringify` and `Number`;
- bcrypt's `hash` and `compare`;
- the storage provider's `getPublicUrl` and its failures;
- the failures of database writes, of the register route's two lookups and of `hash`;
- the clock `Date.now()`;
- `getServerSession`, which becomes the session.

zod's `.url()` check is the uninterpreted constant `CourseSchema.IsUrl`, so every property holds
for any URL check.

JavaScript numbers are integers here: `NaN` is a value of its own, and a number that fails to
parse is `None`.

Several shaping lemmas (`CourseRowFollowsSubmission` and those after it) assume
`CourseSchema.CourseRules`, the field-by-field form of the schema. `CourseSchema.ValidCourseIff`
proves that this is equivalent to passing validation.

## Model

| member | source | states |
|---|---|---|
| `Zod.NonEmptyString` | src/lib/schemas/course.schema.ts:4-5 | `z.string().min(1)` raises no issue exactly when the value is a string of length at least 1, and raises at most one issue |
| `Zod.OptionalString` | src/lib/schemas/mentors.schema.ts:5-6 | `z.string().optional()` raises no issue exactly when the value is undefined or a string, the empty string included |
| `Zod.NumberAtLeastOne` | src/lib/schemas/course.schema.ts:19 | `z.number().min(1)` raises no issue exactly when the value is a number of at least 1 (`NaN` is not a number) |
| `Zod.OptionalNumberAtLeastOne` | src/lib/schemas/course.schema.ts:6 | an optional order raises no issue exactly when it is absent or a number of at least 1 |
| `Zod.NonEmptyArray` | src/lib/schemas/course.schema.ts:13 | `z.array(s).min(1)` raises no issue exactly when the array has at least one element and no element raises an issue |
| `Zod.Elements` | src/lib/schemas/course.schema.ts:13 | the issues of the elements are empty exactly when every element's issues are |
| `Zod.Nest` | src/lib/schemas/course.schema.ts:3-8 | each issue of a child is reported once, in order, with the child's key or index put in front of its path |
| `Zod.ElementIssueReported` | src/lib/schemas/course.schema.ts:13 | every issue of element `k` appears among the array's issues under index `k` |
| `Zod.FieldIssueReported` | src/lib/schemas/course.schema.ts:10-14 | every issue of a property appears among the object's issues under the property's key |
| `Zod.FieldReportedUnder` | src/lib/schemas/course.schema.ts:3-8 | every issue a property raises is reported under that property's key |
| `Zod.ReportedUnderConcat` | src/lib/schemas/course.schema.ts:3-8 | the issues of several properties, reported one after the other, are each under one of the object's keys |
| `CourseSchema.ModuleIssues` | src/lib/schemas/course.schema.ts:3-8 | a value that is not an object raises exactly one invalid-type issue |
| `CourseSchema.ModuleIssuesUnderKeys` | src/lib/schemas/course.schema.ts:3-8 | every issue of a module object lies under `title`, `content`, `video_url` or `order` |
| `CourseSchema.LessonIssues` | src/lib/schemas/course.schema.ts:10-14 | a value that is not an object raises exactly one invalid-type issue |
| `CourseSchema.LessonIssuesUnderKeys` | src/lib/schemas/course.schema.ts:10-14 | every issue of a lesson object lies under `title`, `order` or `modules` |
| `CourseSchema.CourseIssues` | src/lib/schemas/course.schema.ts:16-21 | a value that is not an object raises exactly one invalid-type issue |
| `CourseSchema.CourseIssuesUnderKeys` | src/lib/schemas/course.schema.ts:16-21 | every issue of a course object lies under `title`, `description`, `price` or `lessons` |
| `CourseSchema.VideoUrlIssues` | src/lib/schemas/course.schema.ts:7 | `video_url` raises no issue exactly when it is absent, `""` or a string the URL check accepts; any other value raises one issue |
| `CourseSchema.ValidModuleIff` | src/lib/schemas/course.schema.ts:3-8 | a module is valid exactly when its title and content are non-empty strings, its order is absent or at least 1, and its video URL is accepted |
| `CourseSchema.ValidLessonIff` | src/lib/schemas/course.schema.ts:10-14 | a lesson is valid exactly when its title is non-empty, its order is absent or at least 1, and it has at least one module, all of them valid |
| `CourseSchema.ModulesIssuesEmpty` | src/lib/schemas/course.schema.ts:13 | a modules field raises no issue exactly when it is a non-empty array of modules that keep the module rules |
| `CourseSchema.ValidCourseIff` | src/lib/schemas/course.schema.ts:16-21 | a course is valid exactly when its title and description are non-empty, its price is at least 1, and it has at least one lesson, all of them valid |
| `CourseSchema.LessonsIssuesEmpty` | src/lib/schemas/course.schema.ts:20 | a lessons field raises no issue exactly when it is a non-empty array of lessons that keep the lesson rules |
| `CourseSchema.ModuleIssueInModules` | src/lib/schemas/course.schema.ts:13 | an issue of module `j` is an issue of the module array under index `j` |
| `CourseSchema.ModulesIssueInLesson` | src/lib/schemas/course.schema.ts:13 | an issue of the module array is an issue of the lesson under `modules` |
| `CourseSchema.LessonIssueInLessons` | src/lib/schemas/course.schema.ts:20 | an issue of lesson `i` is an issue of the lesson array under index `i` |
| `CourseSchema.LessonsIssueInCourse` | src/lib/schemas/course.schema.ts:20 | an issue of the lesson array is an issue of the course under `lessons` |
| `CourseSchema.ModuleIssueReachesCourse` | src/lib/schemas/course.schema.ts:13-20 | every issue of one module is reported by the course under `lessons.i.modules.j`, so one invalid module makes the whole course invalid |
| `MentorsSchema.ValidMentorIff` | src/lib/schemas/mentors.schema.ts:3-7 | a mentor is valid exactly when `name` is a non-empty string and `company` and `specialization` are each absent or any string, `""` included |
| `MentorsSchema.MentorIssues` | src/lib/schemas/mentors.schema.ts:3-7 | a value that is not an object raises exactly one invalid-type issue |
| `MentorsSchema.MentorIssuesUnderKeys` | src/lib/schemas/mentors.schema.ts:3-7 | every issue of a mentor object lies under `name`, `company` or `specialization` |
| `MentorsSchema.NameAloneIsValid` | src/lib/schemas/mentors.schema.ts:3-7 | `{name: "x"}` is valid: only the name is required |
| `MentorsSchema.NullCompanyReported` | src/lib/schemas/mentors.schema.ts:5 | a `null` company is reported as an invalid type under `company` |
| `JsValues.AsValue` | src/app/api/course/route.ts:28-29 | `formData.get(name) as string` is a string exactly for a text field and `null` exactly for a missing one |
| `JsValues.NumberValue` | src/app/api/course/route.ts:30 | `Number(formData.get("price"))` is a number or `NaN`, and 0 for a missing field |
| `JsText.TrimStart` | src/app/api/course/route.ts:87 | the leading part that `trim` drops is blank and what remains does not start with white space |
| `JsText.TrimEnd` | src/app/api/course/route.ts:87 | the trailing part that `trim` drops is blank and what remains does not end with white space |
| `JsText.Trim` | src/app/api/course/route.ts:87 | `trim` never lengthens the text, and neither end of what it returns is white space |
| `JsText.TrimIsInfix` | src/app/api/course/route.ts:87 | `trim` keeps one contiguous part of the text and drops only blank text around it |
| `JsText.TrimEmptyIffBlank` | src/app/api/course/route.ts:87 | the trimmed text is empty exactly when the text is blank |
| `JsText.TrimIdempotent` | src/app/api/course/route.ts:87 | trimming twice gives the same text as trimming once |
| `JsText.LastSegment` | src/app/api/course/route.ts:48 | `split(".").pop()` has no dot, is a suffix of the name, and is preceded by a dot when it is not the whole name |
| `JsText.LastSegmentOfDotless` | src/app/api/course/route.ts:48 | a name without a dot is its own extension |
| `JsText.LastSegmentAfterDot` | src/app/api/course/route.ts:48-49 | whatever comes before the last dot does not change the extension |
| `JsText.SplitAtFirstDot` | src/app/api/course/route.ts:49 | a text of the form `x.e` with a dotless `x` determines both `x` and `e` |
| `JsText.DecimalString` | src/app/api/course/route.ts:49 | the decimal text of a number is at least one digit long and has no dot |
| `JsText.ParseDecimalString` | src/app/api/course/route.ts:49 | reading the decimal text of a number gives back the number |
| `JsText.DecimalStringInjective` | src/app/api/course/route.ts:49 | different numbers have different decimal texts |
| `ObjectNames.FileExtension` | src/app/api/course/route.ts:48 | the extension is a dotless suffix of the file name, and the whole name when the name has no dot |
| `ObjectNames.TimestampedName` | src/app/api/course/route.ts:49 | the object name starts with a digit and ends in a dot followed by the file's extension |
| `ObjectNames.MentorPhotoPath` | src/app/api/mentors/route.ts:47-50 | the photo path starts with `mentors/` followed by a digit |
| `ObjectNames.TimestampedNameExtension` | src/app/api/course/route.ts:48-49 | the object name `<now>.<ext>` ends in the file's extension, or in the whole file name when it has no dot |
| `ObjectNames.TimestampedNameInjective` | src/app/api/course/route.ts:48-49 | an object name determines the clock value and the extension |
| `ObjectNames.MentorPathIsNoThumbnailName` | src/app/api/mentors/route.ts:47-50 | a mentor photo path never equals a course thumbnail name |
| `ObjectNames.MentorPhotoPathInjective` | src/app/api/mentors/route.ts:47-50 | two mentor photo paths are equal only for the same clock value and extension |
| `Backend.UploadResult` | src/app/api/course/route.ts:52-57 | an upload without `upsert` is refused as already existing exactly when the path is taken; an upload succeeds exactly when it may write the path and the provider does not fail |
| `Backend.FindUser` | src/app/api/users/route.ts:17-30 | a `findUnique` finds a row exactly when some row matches, and the row it finds is one of the rows and matches |
| `Backend.UserByEmail` | src/app/api/users/route.ts:17-19 | the lookup finds a row exactly when some row has the email, and the row it finds has that email |
| `Backend.UserByUsername` | src/app/api/users/route.ts:28-30 | the lookup finds a row exactly when some row has the username, and the row it finds has that username |
| `Backend.UserByEmailIsTheRow` | src/lib/auth.ts:22 | under the unique constraints, the lookup by a row's email finds that row |
| `Backend.Env.Upload` | src/app/api/course/route.ts:52-57 | the upload stores the content at the path exactly when it is not refused, and is logged |
| `Backend.Env.InsertCourse` | src/app/api/course/route.ts:71-103 | the write adds exactly one course row unless the database fails, and is logged |
| `Backend.Env.InsertMentor` | src/app/api/mentors/route.ts:65-72 | the write adds exactly one mentor row unless the database fails, and is logged |
| `Backend.Env.InsertUser` | src/app/api/users/route.ts:42-48 | the write adds exactly one user row unless the database fails, and is logged |
| `CourseRoute.Submission` | src/app/api/course/route.ts:28-41 | the validated value holds the form's title and description as read, `Number(price)`, and the parsed lessons |
| `CourseRoute.ParsedSubmission` | src/app/api/course/route.ts:28-41 | the value validated exists exactly when `JSON.parse` accepts the lessons text; it holds the parsed lessons, the title and description as read, and `Number(price)` |
| `CourseRoute.TrimmedOrNull` | src/app/api/course/route.ts:87 | `null` exactly for a blank text; otherwise the trimmed text, which is not empty |
| `CourseRoute.OrderAt` | src/app/api/course/route.ts:81 | for an order the schema accepts, the stored order is the given one, or else index + 1, and is at least 1 |
| `CourseRoute.StoredVideoUrl` | src/app/api/course/route.ts:87 | `null` exactly for a missing, non-text or blank video URL; otherwise the trimmed URL, not empty and with no white space at either end |
| `CourseRoute.ModuleRowAt` | src/app/api/course/route.ts:84-89 | the row copies a non-empty title and content, follows the order rule for an accepted order, and stores only a non-empty trimmed video URL |
| `CourseRoute.LessonRowAt` | src/app/api/course/route.ts:79-92 | the row copies a non-empty title, follows the order rule for an accepted order, and has one row per module |
| `CourseRoute.CourseRowOf` | src/app/api/course/route.ts:71-93 | the row stores the given thumbnail URL, copies a price of at least 1, and has one row per lesson |
| `CourseRoute.EarlyResponse` | src/app/api/course/route.ts:17-112 | 403 exactly for a denied request, 400 exactly for missing fields or failed validation (with its issues), 500 exactly for a bad lessons text or a thumbnail that is not a file |
| `CourseRoute.TrimmedOrNullSpec` | src/app/api/course/route.ts:87 | `s.trim() \|\| null` is `null` exactly for a blank text, and otherwise is the trimmed text, with no white space at either end and unchanged by a second trim |
| `CourseRoute.ModuleRowFollowsModule` | src/app/api/course/route.ts:85-88 | a module row copies the title and content, has the given order or else index + 1 (at least 1), and stores the trimmed video URL or `null` |
| `CourseRoute.LessonRowFollowsLesson` | src/app/api/course/route.ts:79-91 | a lesson row copies the title, has the given order or else index + 1, and has one following row per module |
| `CourseRoute.CourseRowFollowsSubmission` | src/app/api/course/route.ts:71-93 | the course row copies the title, description and price (at least 1), stores the thumbnail's public URL, and has one following row per lesson, in order |
| `CourseRoute.StoredOrdersPositive` | src/app/api/course/route.ts:78-88 | every stored lesson order and module order is at least 1 |
| `CourseRoute.ModuleCountPreserved` | src/app/api/course/route.ts:77-93 | the write creates exactly as many module rows as the submission has modules |
| `CourseRoute.CourseStage` | src/app/api/course/route.ts:15-45 | the request is denied exactly without an admin session; it stops at the required-field check exactly when `thumbnail` or `lessons` is falsy, and at the parse exactly when `JSON.parse` throws; when it is ready, the thumbnail is the file it uploads |
| `CourseRoute.StageReady` | src/app/api/course/route.ts:15-48 | an admin request with a file thumbnail and lessons that parse into a valid submission reaches the upload |
| `CourseRoute.StageValidation` | src/app/api/course/route.ts:41-48 | a validation stop carries the submission's non-empty issues; only a valid submission reaches the thumbnail's name or the upload |
| `CourseRoute.LowPriceNeverUploads` | src/app/api/course/route.ts:30-45 | a price below 1, or `NaN`, never reaches the upload |
| `CourseRoute.ReadyLessonsAreArray` | src/app/api/course/route.ts:66-68 | after validation, the lessons are a non-empty array, so the `Array.isArray` check never fires |
| `CourseRoute.Post` | src/app/api/course/route.ts:14-114 | each early stop returns its response, and stores and writes nothing; only a non-admin request leaves the form unread; a refused upload returns 500 and writes no row; after an upload, a failed write returns 500 and keeps the object, and a successful one adds exactly the shaped row and returns 201 |
| `CourseRoute.Store` | src/app/api/course/route.ts:47-109 | the upload under the key without overwriting, then the write of the shaped row with the key's public URL |
| `CourseRoute.ListCourses` | src/app/api/course/route.ts:116-168 | the count and the page query filter on the title with the same text, newest first |
| `Listing.NumberOr` | src/app/api/course/route.ts:120-121 | `Number(x) \|\| d` is `d` for a missing, zero or `NaN` parameter and the number otherwise |
| `Listing.SearchText` | src/app/api/course/route.ts:122 | a missing search is the empty text, and a given one is used as it is |
| `Listing.CeilDiv` | src/app/api/course/route.ts:166 | `Math.ceil(total / limit)`: for a positive limit, the least number of pages of that size that hold `total` rows |
| `Listing.Plan` | src/app/api/mentors/route.ts:88-129 | the page and limit served are `Number(page) \|\| 1` and `Number(limit) \|\| 9`; the query skips `(page - 1) * limit` rows, takes `limit`, is ordered by the given column, and filters on the search text like the count; the pagination reports the counted total and `ceil(total / limit)` pages |
| `Listing.PlanDefaults` | src/app/api/course/route.ts:120-124 | with no parameters, page 1 of 9 rows, skip 0, and an empty search |
| `Listing.PlanZeroFallsBack` | src/app/api/course/route.ts:120-121 | a missing page, or one of 0 or `NaN`, falls back to 1 with skip 0; a limit of that kind falls back to 9; each holds whatever the other parameter is |
| `Listing.PlanServesRequested` | src/app/api/course/route.ts:120-124 | a page or limit that reads as a non-zero number is served as asked, whatever the other one is, and together they give `skip = (page - 1) * limit` |
| `Listing.PlanPages` | src/app/api/course/route.ts:124-166 | `skip = (page - 1) * limit`, the same filter for both queries, and a page count that covers the total and no more |
| `Listing.PageRows` | src/app/api/course/route.ts:147-148 | a page never holds more than `limit` rows |
| `Listing.FirstPagesArePrefix` | src/app/api/course/route.ts:147-148 | the first `n` pages are exactly the first `n * limit` rows |
| `Listing.PagesCoverRows` | src/app/api/course/route.ts:147-166 | reading pages 1 to `totalPages` returns every row once, in order, and the last page is not empty |
| `MentorsRoute.NormalizedOptional` | src/app/api/mentors/route.ts:32-33 | `value ? String(value) : null` is `null` exactly for a missing or empty field and otherwise the field's non-empty text |
| `MentorsRoute.NameOf` | src/app/api/mentors/route.ts:26 | a text `name` field gives its text, and a non-empty name always comes from the form's `name` text |
| `MentorsRoute.MentorRowOf` | src/app/api/mentors/route.ts:65-71 | the row stores the given photo URL; each optional field is `null` exactly when the form's field is falsy, and otherwise is its non-empty text |
| `MentorsRoute.EarlyResponse` | src/app/api/mentors/route.ts:15-80 | 403 exactly for a denied request, 400 exactly for a missing photo or failed validation (with its issues), 500 exactly for a photo that is not a file |
| `MentorsRoute.ValidationInputAsWritten` | src/app/api/mentors/route.ts:26-40 | as written, the value validated has all three fields, so a missing field is `null` |
| `MentorsRoute.ValidationInput` | src/app/api/mentors/route.ts:26-40 | as corrected, a missing or empty optional field is left out of the value validated, and every field present is the form's value |
| `MentorsRoute.ValidationInputIff` | src/app/api/mentors/route.ts:26-44 | with the corrected input, a form passes exactly when its name is a non-empty text and each optional field is absent, empty or a text |
| `MentorsRoute.ValidationInputAgrees` | src/app/api/mentors/route.ts:26-40 | where both optional fields are filled in, the corrected input equals the one as written |
| `MentorsRoute.ClientForm` | src/app/admin/mentors/mentors.tsx:75-84 | the admin page sends the name and the photo, and sends `company` and `specialization` only when they are not empty |
| `MentorsRoute.ClientWithoutCompanyRejectedAsWritten` | src/app/api/mentors/route.ts:26-44 | as written, every mentor the page sends without a company is rejected under `company` |
| `MentorsRoute.ClientFormAccepted` | src/app/api/mentors/route.ts:26-44 | as corrected, every mentor the page sends with a name passes validation |
| `MentorsRoute.MentorStage` | src/app/api/mentors/route.ts:13-47 | the request is denied exactly without an admin session; it stops at the photo check exactly when the photo is falsy, and at validation exactly when the input is invalid, with its issues; it reaches the upload exactly with a file photo and a valid input (corrected input, see ## Findings) |
| `MentorsRoute.EmptyNameNeverUploads` | src/app/api/mentors/route.ts:40-44 | an empty name stops at validation, with an issue under `name` |
| `MentorsRoute.MentorRowFollowsForm` | src/app/api/mentors/route.ts:65-71 | the mentor row has the form's non-empty name; each optional field is `null` exactly when it is missing or empty and is copied otherwise; the photo URL is the one given |
| `MentorsRoute.Post` | src/app/api/mentors/route.ts:13-82 | each early stop returns its response, and stores and writes nothing; a refused upload returns 500 and writes no row; the photo goes to `mentors/<now>.<ext>`, and the row stores that path's public URL (corrected input, see ## Findings) |
| `MentorsRoute.Store` | src/app/api/mentors/route.ts:52-77 | the upload at the path without overwriting, then the write of the mentor row with the path's public URL |
| `MentorsRoute.ListMentors` | src/app/api/mentors/route.ts:84-131 | the count and the page query filter on the name with the same text, newest first |
| `Auth.Authorize` | src/lib/auth.ts:19-36 | a user is returned only for present credentials whose email belongs to a row whose hash matches the password, and it is that row's user |
| `Auth.UserOf` | src/lib/auth.ts:28-35 | the user returned copies the row's id, username, email, full name, photo URL and role |
| `Auth.AuthorizeNeedsBothFields` | src/lib/auth.ts:20 | a missing or empty email or password gives `null` |
| `Auth.AuthorizeUnknownEmail` | src/lib/auth.ts:22-23 | an email no row has gives `null` |
| `Auth.AuthorizeKnownEmail` | src/lib/auth.ts:22-35 | for the row with that email, the result is `null` when the password does not match, and otherwise the row's id, username, email, optional fields and role |
| `Auth.ExpiryLifetimes` | src/lib/auth.ts:52-62 | an admin token expires one hour after `now`, any other token one day after |
| `Auth.AdminExpiresEarlier` | src/lib/auth.ts:52-62 | issued at the same time, an admin token expires strictly before any other |
| `Auth.ExpiryFor` | src/lib/auth.ts:52-55 | the expiry is after `now` and at most one day later, and is exactly one hour later for an admin and only then |
| `Auth.LoginToken` | src/lib/auth.ts:41-56 | on sign-in, the token keeps its other claims, takes the user's id, email, username, full name, photo URL and role, and expires after the role's lifetime |
| `Auth.RefreshedToken` | src/lib/auth.ts:59-65 | without a user, a token with an expiry is unchanged, and a missing or zero expiry is set from the token's role |
| `Auth.RefreshIdempotent` | src/lib/auth.ts:59-65 | refreshing a refreshed token changes nothing, whatever the time |
| `Auth.Token.constructor` | src/lib/auth.ts:44-56 | the new token holds exactly the given claims |
| `Auth.Jwt` | src/lib/auth.ts:40-66 | on sign-in, a fresh token with the login claims, the old token untouched; otherwise the same token, its expiry set in place only when it was missing |
| `Auth.SessionOf` | src/lib/auth.ts:67-78 | the session keeps its expiry, and its user is exactly the token's id, username, email, full name, photo URL and role |
| `Auth.RefreshKeepsSession` | src/lib/auth.ts:59-78 | refreshing a token's expiry does not change the session built from it |
| `Auth.SignInSession` | src/lib/auth.ts:19-78 | after a successful sign-in, the session's user carries the fields of the row whose email was given |
| `UsersRoute.NewUser` | src/app/api/users/route.ts:39-48 | the new row has the given email and username, and stores the value `hash` returns for the password |
| `UsersRoute.FreshUserKeepsUnique` | src/app/api/users/route.ts:17-48 | adding a row whose email and username no row has keeps emails and usernames unique |
| `UsersRoute.Register` | src/app/api/users/route.ts:7-57 | a bad body, or a throw of either lookup or of `hash`, returns 500 with no row added; a taken email returns 409 before the username is looked up; a taken username returns 409; both change no row; otherwise exactly one row with the hashed password is added and 201 returned, or 500 on a failed write; uniqueness is kept |
| `CourseForm.Payload` | src/app/admin/courses/create-courses/form.tsx:81-86 | the request carries exactly `title`, `description`, `price` as text, `thumbnail` and `lessons` as JSON |
| `CourseForm.DefaultDraftRejected` | src/app/admin/courses/create-courses/form.tsx:32-37 | the default form fails validation on its empty title and description, its price of 0 and its empty list of lessons |
| `CourseForm.FreshLessonRejected` | src/app/admin/courses/create-courses/form.tsx:48-52 | a freshly added lesson fails validation on its empty title and its empty list of modules |
| `CourseForm.FreshModuleIssues` | src/app/admin/courses/create-courses/form.tsx:58-62 | a freshly added module fails on its title and its content only, since its empty video URL is accepted |
| `CourseForm.FreshLesson` | src/app/admin/courses/create-courses/form.tsx:47-53 | the new lesson has an empty title and no modules, and appended after `count` lessons numbered by position it keeps them numbered by position |
| `CourseForm.DraftValue` | src/app/admin/courses/create-courses/form.tsx:30-37 | the value the resolver checks has the form's title and description, its price or `NaN` for an empty price input, and its lessons |
| `CourseForm.ValidDraftPrice` | src/app/admin/courses/create-courses/form.tsx:163-171 | a form that passes validation has a price of at least 1 |
| `CourseForm.PayloadParsed` | src/app/admin/courses/create-courses/form.tsx:81-86 | the server reads the form's own values back from the request |
| `CourseForm.PayloadReachesUpload` | src/app/admin/courses/create-courses/form.tsx:66-92 | a request the form sends from an admin session passes every server check up to the upload, with the form's values and its thumbnail |
| `CourseForm.FormState.constructor` | src/app/admin/courses/create-courses/form.tsx:25-37 | the form starts with the default values, no thumbnail and no lessons |
| `CourseForm.FormState.AddLesson` | src/app/admin/courses/create-courses/form.tsx:47-53 | appends exactly one empty lesson numbered after the existing ones, keeping every lesson numbered by its position |
| `CourseForm.FormState.AddModule` | src/app/admin/courses/create-courses/form.tsx:55-64 | appends one empty module to lesson `i`; other lessons and lesson `i`'s earlier modules are unchanged |
| `CourseForm.FormState.SetFields` | src/app/admin/courses/create-courses/form.tsx:133-171 | typing into the title, description or price input changes only that value |
| `CourseForm.FormState.SetLessonTitle` | src/app/admin/courses/create-courses/form.tsx:217-222 | typing a lesson title changes only that lesson's title |
| `CourseForm.FormState.SetModule` | src/app/admin/courses/create-courses/form.tsx:250-285 | typing into a module's inputs changes only that module |
| `CourseForm.FormState.SetThumbnail` | src/app/admin/courses/create-courses/form.tsx:184-196 | a chosen file replaces the thumbnail; clearing the input keeps the earlier one |
| `CourseForm.FormState.Submit` | src/app/admin/courses/create-courses/form.tsx:30-92 | the resolver's issues stop the submit first, then a missing admin session, then a missing thumbnail; otherwise the request is exactly the payload of the form's values |

## Left out

- Foreign calls are function parameters, and nothing is assumed about them beyond what each
  lemma states: `JSON.parse`, `JSON.stringify`, `Number`, `parseFloat`, bcrypt `hash` and
  `compare`, `getPublicUrl`, `getServerSession`. So are the failures of the storage
  provider, of each database write, of the two lookups in `POST /api/register` and of its
  `hash`. `Date.now()` is a parameter as well.
- Auth.Authorize: the `findUnique` lookup (src/lib/auth.ts:22) and `compare` (line 25) are
  treated as total, because a throw there leaves the callback without a result. The sign-in
  then fails outside the callback's own code.
- zod's URL check is an uninterpreted predicate. The full `ZodError` object is reduced to the
  issues' paths and codes.
- Floating point: prices, pages and limits are integers or `NaN`. Fractional values read by
  `Number`/`parseFloat` and `Math.ceil` on doubles are not modelled.
- Concurrency: two uploads in the same millisecond, and the check-then-insert race of
  registration. The model is sequential. A second upload under the same name is refused, as
  `Backend.UploadResult` states.
- The register schema in `src/lib/schemas/user.schema.ts` is not part of this model:
  `UsersRoute.Register` takes the parsed body, or `None` when reading or validating it throws.
  The user row's id and default role are parameters, because the database assigns them.
- A failure of `req.formData()` is not modelled, and neither are the error paths of the `GET`
  handlers.
- Nothing is modelled for the Prisma `include` clauses or for what a negative `take` does.
  `Listing.PageRows` describes pages only for a page and a limit of at least 1.
- Auth.UserOf: ``id: `${user.id_user}` `` (src/lib/auth.ts:29) is not modelled as a number-to-text
  conversion, because the user row's id is already text in the model.
- The `console.error` calls in the catch blocks (src/app/api/course/route.ts:111,
  src/app/api/mentors/route.ts:79): they are logging only and change no response.
- JWT signing, the cookie, `maxAge` and the sign-in page configuration.
- All rendering, toasts, navigation and the handling of the response in `onSubmit`.
  `CourseForm.FormState.Submit` ends at the request it sends.
- CourseRoute.Post: the `Array.isArray` check after the upload has no branch in the model,
  because `CourseRoute.ReadyLessonsAreArray` proves that it never fires.
- CourseForm.FormState.AddModule: takes only an index of an existing lesson. The page offers
  the button only for the lessons it shows, and any other index would throw in the source.
- The mentors and courses list pages, the sidebar and the type declarations: they are UI glue
  or declarations with no logic to state.

## Findings

| source | as written | input that shows it | evidently intended | confidence | as-written member | corrected member |
|---|---|---|---|---|---|---|
| src/app/api/mentors/route.ts:26-40 | validates `{ name, company, specialization }` built from `formData.get`, which is `null` for a missing field; `z.string().optional()` rejects `null` | the admin page (src/app/admin/mentors/mentors.tsx:75-84) leaves out an empty company, so a mentor `{name: "x"}` with a photo gets a 400 | missing or empty optional fields are left undefined, the same fields the handler stores as `null` (lines 32-33) | not executed | `MentorsRoute.ClientWithoutCompanyRejectedAsWritten` | `MentorsRoute.ClientFormAccepted` |

`MentorsRoute.ValidationInputAsWritten` models the value as written. The corrected
`MentorsRoute.ValidationInput` is the one `MentorsRoute.MentorStage` and
`MentorsRoute.Post` validate.
