/** The external state the handlers change, and the calls they make on it: the storage
    bucket (object name to content), the course, mentor and user tables, and a log of the
    calls made, in order. */
module Backend {
  import opened JsValues

  /** A module row as the nested create writes it. */
  datatype ModuleRow = ModuleRow(title: string, content: string, videoUrl: Option<string>, order: int)

  /** A lesson row with its module rows, in order. */
  datatype LessonRow = LessonRow(title: string, order: int, modules: seq<ModuleRow>)

  /** A course row with its lesson rows, in order. */
  datatype CourseRow = CourseRow(title: string, description: string, price: int, thumbnail: string,
                                 lessons: seq<LessonRow>)

  datatype MentorRow = MentorRow(name: string, company: Option<string>, specialization: Option<string>,
                                 photoUrl: string)

  datatype UserRow = UserRow(idUser: string, username: string, email: string, password: string,
                             fullName: Option<string>, photoUrl: Option<string>, role: string)

  datatype UploadError = AlreadyExists | ProviderError(message: string)

  /** The calls on the request and on the collaborators that the log records. */
  datatype Call =
    | ReadForm
    | ReadBody
    | StorageUpload(path: string)
    | CreateCourse
    | CreateMentor
    | FindUserByEmail(email: string)
    | FindUserByUsername(username: string)
    | HashPassword
    | CreateUser

  /** What the bucket answers to an upload: an object that already exists is refused unless
      `upsert` is set; `fault` stands for any other failure of the storage provider. */
  function UploadResult(bucket: map<string, seq<byte>>, path: string, upsert: bool,
                        fault: Option<string>): (r: Option<UploadError>)
    ensures r == Some(AlreadyExists) <==> !upsert && path in bucket
    ensures r == None <==> (upsert || path !in bucket) && fault.None?
  {
    if !upsert && path in bucket then Some(AlreadyExists)
    else if fault.Some? then Some(ProviderError(fault.value))
    else None
  }

  /** `prisma.users.findUnique(..)` on a unique column: the first row that `matches`, if any. */
  function FindUser(users: seq<UserRow>, matches: UserRow -> bool): (r: Option<UserRow>)
    ensures r.Some? <==> exists k :: 0 <= k < |users| && matches(users[k])
    ensures r.Some? ==> r.value in users && matches(r.value)
  {
    if users == [] then None
    else if matches(users[0]) then Some(users[0])
    else
      var r := FindUser(users[1..], matches);
      assert forall k :: 1 <= k < |users| ==> users[k] == users[1..][k - 1];
      r
  }

  /** `prisma.users.findUnique({ where: { email } })`. */
  function UserByEmail(users: seq<UserRow>, email: string): (r: Option<UserRow>)
    ensures r.Some? <==> exists k :: 0 <= k < |users| && users[k].email == email
    ensures r.Some? ==> r.value in users && r.value.email == email
  {
    FindUser(users, (u: UserRow) => u.email == email)
  }

  /** `prisma.users.findUnique({ where: { username } })`. */
  function UserByUsername(users: seq<UserRow>, username: string): (r: Option<UserRow>)
    ensures r.Some? <==> exists k :: 0 <= k < |users| && users[k].username == username
    ensures r.Some? ==> r.value in users && r.value.username == username
  {
    FindUser(users, (u: UserRow) => u.username == username)
  }

  /** The unique constraints of the user table: no two rows share an email or a username. */
  predicate UniqueUsers(users: seq<UserRow>) {
    forall i, j :: 0 <= i < j < |users| ==>
      users[i].email != users[j].email && users[i].username != users[j].username
  }

  /** Under the unique constraints, the lookup by email finds the one row with that email. */
  lemma UserByEmailIsTheRow(users: seq<UserRow>, k: nat)
    requires UniqueUsers(users) && k < |users|
    ensures UserByEmail(users, users[k].email) == Some(users[k])
  {
    var u := UserByEmail(users, users[k].email).value;
    var i :| 0 <= i < |users| && users[i] == u;
    assert i == k by {
      assert users[i].email == users[k].email;
    }
  }

  class Env {
    var bucket: map<string, seq<byte>>
    var courses: seq<CourseRow>
    var mentors: seq<MentorRow>
    var users: seq<UserRow>
    var log: seq<Call>

    constructor (users: seq<UserRow>)
      ensures this.users == users
      ensures bucket == map[] && courses == [] && mentors == [] && log == []
    {
      this.users := users;
      bucket, courses, mentors, log := map[], [], [], [];
    }

    method Record(call: Call)
      modifies this`log
      ensures log == old(log) + [call]
    {
      log := log + [call];
    }

    /** `supabase.storage.from(bucket).upload(path, file, { upsert })`. */
    method Upload(path: string, content: seq<byte>, upsert: bool, fault: Option<string>)
      returns (err: Option<UploadError>)
      modifies this`bucket, this`log
      ensures err == UploadResult(old(bucket), path, upsert, fault)
      ensures bucket == if err.None? then old(bucket)[path := content] else old(bucket)
      ensures log == old(log) + [StorageUpload(path)]
    {
      log := log + [StorageUpload(path)];
      err := UploadResult(bucket, path, upsert, fault);
      if err.None? {
        bucket := bucket[path := content];
      }
    }

    /** `prisma.course.create(..)` with its nested lessons and modules; `fails` stands for a
        failure of the database, which then writes nothing. */
    method InsertCourse(row: CourseRow, fails: bool) returns (ok: bool)
      modifies this`courses, this`log
      ensures ok == !fails
      ensures courses == if ok then old(courses) + [row] else old(courses)
      ensures log == old(log) + [CreateCourse]
    {
      log := log + [CreateCourse];
      ok := !fails;
      if ok {
        courses := courses + [row];
      }
    }

    /** `prisma.mentor.create(..)`. */
    method InsertMentor(row: MentorRow, fails: bool) returns (ok: bool)
      modifies this`mentors, this`log
      ensures ok == !fails
      ensures mentors == if ok then old(mentors) + [row] else old(mentors)
      ensures log == old(log) + [CreateMentor]
    {
      log := log + [CreateMentor];
      ok := !fails;
      if ok {
        mentors := mentors + [row];
      }
    }

    /** `prisma.users.create(..)`. */
    method InsertUser(row: UserRow, fails: bool) returns (ok: bool)
      modifies this`users, this`log
      ensures ok == !fails
      ensures users == if ok then old(users) + [row] else old(users)
      ensures log == old(log) + [CreateUser]
    {
      log := log + [CreateUser];
      ok := !fails;
      if ok {
        users := users + [row];
      }
    }
  }
}
