/** The query and mutation resolvers over a store of three collections. Each
    resolver runs as one atomic step against the store; the id the driver
    generates for an insert is a parameter of the create resolvers. */
module Resolvers {
  import opened Wrappers
  import opened ObjectIds
  import opened Types
  import opened Utils
  import opened Arrays

  /** Message of the error the update, enroll and unenroll resolvers throw for a missing document. */
  const NotFound: string := "No encontrado"

  /** JavaScript's `??`: the supplied value when there is one, otherwise the fallback.
      A supplied empty string is kept. */
  function Coalesce<T>(value: Option<T>, fallback: T): T {
    if value.Some? then value.value else fallback
  }

  // ---------------------------------------------------------------------------
  // Partial updates

  /** The document `updateStudent` writes back: `name` and `email` merged with `??`. */
  function MergeStudent(m: StudentModel, name: Option<string>, email: Option<string>): (r: StudentModel)
    ensures r.id == m.id && r.enrolledCourses == m.enrolledCourses
    ensures name.Some? ==> r.name == name.value
    ensures name.None? ==> r.name == m.name
    ensures email.Some? ==> r.email == email.value
    ensures email.None? ==> r.email == m.email
    ensures name.None? && email.None? ==> r == m
  {
    m.(name := Coalesce(name, m.name), email := Coalesce(email, m.email))
  }

  /** The document `updateTeacher` writes back: `name` and `email` merged with `??`. */
  function MergeTeacher(m: TeacherModel, name: Option<string>, email: Option<string>): (r: TeacherModel)
    ensures r.id == m.id && r.coursesTaught == m.coursesTaught
    ensures name.Some? ==> r.name == name.value
    ensures name.None? ==> r.name == m.name
    ensures email.Some? ==> r.email == email.value
    ensures email.None? ==> r.email == m.email
    ensures name.None? && email.None? ==> r == m
  {
    m.(name := Coalesce(name, m.name), email := Coalesce(email, m.email))
  }

  /** The document `updateCourse` writes back: `title`, `description` and
      `teacherId` merged with `??`; `studentIds` is never touched. */
  function MergeCourse(m: CourseModel, title: Option<string>, description: Option<string>,
                       teacherId: Option<string>): (r: CourseModel)
    ensures r.id == m.id && r.studentIds == m.studentIds
    ensures title.Some? ==> r.title == title.value
    ensures title.None? ==> r.title == m.title
    ensures description.Some? ==> r.description == description.value
    ensures description.None? ==> r.description == m.description
    ensures teacherId.Some? ==> r.teacherId == teacherId.value
    ensures teacherId.None? ==> r.teacherId == m.teacherId
    ensures title.None? && description.None? && teacherId.None? ==> r == m
  {
    m.(title := Coalesce(title, m.title), description := Coalesce(description, m.description),
       teacherId := Coalesce(teacherId, m.teacherId))
  }

  /** Repeating an update with the same arguments changes nothing more. */
  lemma MergeCourseIdempotent(m: CourseModel, title: Option<string>, description: Option<string>,
                              teacherId: Option<string>)
    ensures var once := MergeCourse(m, title, description, teacherId);
            MergeCourse(once, title, description, teacherId) == once
  {
  }

  // ---------------------------------------------------------------------------
  // Enrollment

  /** The course `enrollStudentInCourse` writes back: `studentId` pushed onto
      `studentIds`, even when it is already there. */
  function Enrolled(c: CourseModel, studentId: string): (r: CourseModel)
    ensures r.(studentIds := c.studentIds) == c
    ensures |r.studentIds| == |c.studentIds| + 1
    ensures r.studentIds[..|c.studentIds|] == c.studentIds
    ensures r.studentIds[|c.studentIds|] == studentId
    ensures multiset(r.studentIds)[studentId] == multiset(c.studentIds)[studentId] + 1
  {
    var ids := c.studentIds + [studentId];
    assert ids[..|c.studentIds|] == c.studentIds;
    c.(studentIds := ids)
  }

  /** The course `removeStudentFromCourse` writes back: the first occurrence of
      `studentId` spliced out of `studentIds`, if there is one. */
  function Unenrolled(c: CourseModel, studentId: string): (r: CourseModel)
    ensures r.(studentIds := c.studentIds) == c
    ensures studentId !in c.studentIds ==> r == c
    ensures studentId in c.studentIds ==>
              |r.studentIds| == |c.studentIds| - 1 &&
              multiset(r.studentIds)[studentId] == multiset(c.studentIds)[studentId] - 1
    ensures forall other :: other != studentId ==>
              multiset(r.studentIds)[other] == multiset(c.studentIds)[other]
  {
    RemoveFirstMultiset(c.studentIds, studentId);
    c.(studentIds := RemoveFirst(c.studentIds, studentId))
  }

  /** Enrolling a student who was not enrolled and then removing them restores the course. */
  lemma EnrollThenUnenroll(c: CourseModel, studentId: string)
    requires studentId !in c.studentIds
    ensures Unenrolled(Enrolled(c, studentId), studentId) == c
  {
    RemoveFirstAfterAppend(c.studentIds, studentId);
  }

  /** Whatever the membership was, enrolling and then removing a student leaves
      the same members the same number of times. */
  lemma EnrollThenUnenrollMembers(c: CourseModel, studentId: string)
    ensures multiset(Unenrolled(Enrolled(c, studentId), studentId).studentIds) == multiset(c.studentIds)
  {
    RemoveFirstMultiset(c.studentIds + [studentId], studentId);
  }

  // ---------------------------------------------------------------------------
  // The store

  /** `keys` lists every key of `m` exactly once. */
  ghost predicate Enumerates<V>(keys: seq<ObjectId>, m: map<ObjectId, V>) {
    && |keys| == |m|
    && (forall k :: k in keys <==> k in m)
    && (forall i, j :: 0 <= i < j < |keys| ==> keys[i] != keys[j])
  }

  /** `find().toArray()`: every document of the collection exactly once, in an
      order the store chooses. */
  method Find<V>(collection: map<ObjectId, V>) returns (keys: seq<ObjectId>, docs: seq<V>)
    ensures Enumerates(keys, collection)
    ensures |docs| == |keys|
    ensures forall i :: 0 <= i < |keys| ==> docs[i] == collection[keys[i]]
  {
    var rest := collection.Keys;
    keys, docs := [], [];
    while rest != {}
      invariant rest <= collection.Keys
      invariant |keys| + |rest| == |collection|
      invariant forall k :: k in keys <==> k in collection && k !in rest
      invariant forall i, j :: 0 <= i < j < |keys| ==> keys[i] != keys[j]
      invariant |docs| == |keys|
      invariant forall i :: 0 <= i < |keys| ==> keys[i] in collection && docs[i] == collection[keys[i]]
      decreases |rest|
    {
      var k :| k in rest;
      keys, docs := keys + [k], docs + [collection[k]];
      rest := rest - {k};
    }
  }

  /** Converting the documents of an enumeration misses none of them. */
  lemma ListedAll<V, A>(m: map<ObjectId, V>, keys: seq<ObjectId>, convert: V --> A, r: seq<A>)
    requires forall k :: k in m ==> k in keys && convert.requires(m[k])
    requires |r| == |keys|
    requires forall i :: 0 <= i < |keys| ==> keys[i] in m && r[i] == convert(m[keys[i]])
    ensures forall k :: k in m ==> convert(m[k]) in r
  {
    forall k | k in m ensures convert(m[k]) in r {
      var i :| 0 <= i < |keys| && keys[i] == k;
      assert r[i] == convert(m[k]);
    }
  }

  /** Entries listed under distinct keys, each carrying its key's string form, have distinct ids. */
  lemma ListedDistinct<A>(keys: seq<ObjectId>, idOf: A -> string, r: seq<A>)
    requires forall i, j :: 0 <= i < j < |keys| ==> keys[i] != keys[j]
    requires |r| == |keys|
    requires forall i :: 0 <= i < |keys| ==> idOf(r[i]) == IdString(keys[i])
    ensures forall i, j :: 0 <= i < j < |r| ==> idOf(r[i]) != idOf(r[j])
  {
    forall i, j | 0 <= i < j < |r| ensures idOf(r[i]) != idOf(r[j]) {
      IdStringInjective(keys[i], keys[j]);
    }
  }

  class Store {
    var students: map<ObjectId, StudentModel>
    var teachers: map<ObjectId, TeacherModel>
    var courses: map<ObjectId, CourseModel>

    /** Every stored document carries the identifier it is stored under. */
    ghost predicate Valid()
      reads this
    {
      && (forall k :: k in students ==> students[k].id == Some(k))
      && (forall k :: k in teachers ==> teachers[k].id == Some(k))
      && (forall k :: k in courses ==> courses[k].id == Some(k))
    }

    constructor ()
      ensures Valid()
      ensures students == map[] && teachers == map[] && courses == map[]
    {
      students, teachers, courses := map[], map[], map[];
    }

    // -------------------------------------------------------------------------
    // Queries

    /** Query `students`. */
    method ListStudents() returns (r: seq<Student>)
      requires Valid()
      ensures |r| == |students|
      ensures forall k :: k in students ==> FormModelToStudent(students[k]) in r
      ensures forall i, j :: 0 <= i < j < |r| ==> r[i].id != r[j].id
    {
      // Every entry is a converted stored document: the n stored documents have
      // n distinct converted forms (distinct ids), all of them occur in r, and r
      // has exactly n entries, so no room is left for anything else.
      var keys, docs := Find(students);
      r := MapSeq(FormModelToStudent, docs);
      ListedAll(students, keys, FormModelToStudent, r);
      ListedDistinct(keys, (x: Student) => x.id, r);
    }

    /** Query `teachers`. */
    method ListTeachers() returns (r: seq<Teacher>)
      requires Valid()
      ensures |r| == |teachers|
      ensures forall k :: k in teachers ==> FormModelToTeacher(teachers[k]) in r
      ensures forall i, j :: 0 <= i < j < |r| ==> r[i].id != r[j].id
    {
      // Every entry is a converted stored document: the n stored documents have
      // n distinct converted forms (distinct ids), all of them occur in r, and r
      // has exactly n entries, so no room is left for anything else.
      var keys, docs := Find(teachers);
      r := MapSeq(FormModelToTeacher, docs);
      ListedAll(teachers, keys, FormModelToTeacher, r);
      ListedDistinct(keys, (x: Teacher) => x.id, r);
    }

    /** Query `courses`. */
    method ListCourses() returns (r: seq<Course>)
      requires Valid()
      ensures |r| == |courses|
      ensures forall k :: k in courses ==> FormModelToCourse(courses[k]) in r
      ensures forall i, j :: 0 <= i < j < |r| ==> r[i].id != r[j].id
    {
      // Every entry is a converted stored document: the n stored documents have
      // n distinct converted forms (distinct ids), all of them occur in r, and r
      // has exactly n entries, so no room is left for anything else.
      var keys, docs := Find(courses);
      r := MapSeq(FormModelToCourse, docs);
      ListedAll(courses, keys, FormModelToCourse, r);
      ListedDistinct(keys, (x: Course) => x.id, r);
    }

    /** Query `student(id)`: absent is `None`, not an error. */
    function GetStudent(id: ObjectId): (r: Option<Student>)
      reads this
      requires Valid()
      ensures r.None? <==> id !in students
      ensures r.Some? ==> r.value == FormModelToStudent(students[id]) && r.value.id == IdString(id)
    {
      if id in students then Some(FormModelToStudent(students[id])) else None
    }

    /** Query `teacher(id)`. */
    function GetTeacher(id: ObjectId): (r: Option<Teacher>)
      reads this
      requires Valid()
      ensures r.None? <==> id !in teachers
      ensures r.Some? ==> r.value == FormModelToTeacher(teachers[id]) && r.value.id == IdString(id)
    {
      if id in teachers then Some(FormModelToTeacher(teachers[id])) else None
    }

    /** Query `course(id)`. */
    function GetCourse(id: ObjectId): (r: Option<Course>)
      reads this
      requires Valid()
      ensures r.None? <==> id !in courses
      ensures r.Some? ==> r.value == FormModelToCourse(courses[id]) && r.value.id == IdString(id)
    {
      if id in courses then Some(FormModelToCourse(courses[id])) else None
    }

    // -------------------------------------------------------------------------
    // Create: `insertedId` is the identifier the store assigns to the insert.

    method CreateStudent(name: string, email: string, insertedId: ObjectId) returns (r: Student)
      requires Valid() && insertedId !in students
      modifies this
      ensures Valid()
      ensures students == old(students)[insertedId := StudentModel(Some(insertedId), name, email, [])]
      ensures teachers == old(teachers) && courses == old(courses)
      ensures r == Student(IdString(insertedId), name, email, [])
      ensures GetStudent(insertedId) == Some(r)
    {
      var studentModel := StudentModel(Some(insertedId), name, email, []);
      students := students[insertedId := studentModel];
      r := FormModelToStudent(studentModel);
    }

    method CreateTeacher(name: string, email: string, insertedId: ObjectId) returns (r: Teacher)
      requires Valid() && insertedId !in teachers
      modifies this
      ensures Valid()
      ensures teachers == old(teachers)[insertedId := TeacherModel(Some(insertedId), name, email, [])]
      ensures students == old(students) && courses == old(courses)
      ensures r == Teacher(IdString(insertedId), name, email, [])
      ensures GetTeacher(insertedId) == Some(r)
    {
      var teacherModel := TeacherModel(Some(insertedId), name, email, []);
      teachers := teachers[insertedId := teacherModel];
      r := FormModelToTeacher(teacherModel);
    }

    method CreateCourse(title: string, description: string, teacherId: string, insertedId: ObjectId)
      returns (r: Course)
      requires Valid() && insertedId !in courses
      modifies this
      ensures Valid()
      ensures courses == old(courses)[insertedId := CourseModel(Some(insertedId), title, description, teacherId, [])]
      ensures students == old(students) && teachers == old(teachers)
      ensures r == Course(IdString(insertedId), title, description, teacherId, [])
      ensures GetCourse(insertedId) == Some(r)
    {
      var courseModel := CourseModel(Some(insertedId), title, description, teacherId, []);
      courses := courses[insertedId := courseModel];
      r := FormModelToCourse(courseModel);
    }

    // -------------------------------------------------------------------------
    // Delete: `findOneAndDelete`, true iff a document was removed; no cascade.

    method DeleteStudent(id: ObjectId) returns (deleted: bool)
      requires Valid()
      modifies this
      ensures Valid()
      ensures deleted <==> id in old(students)
      ensures students == old(students) - {id}
      ensures teachers == old(teachers) && courses == old(courses)
      ensures GetStudent(id) == None
    {
      deleted := id in students;
      students := students - {id};
    }

    method DeleteTeacher(id: ObjectId) returns (deleted: bool)
      requires Valid()
      modifies this
      ensures Valid()
      ensures deleted <==> id in old(teachers)
      ensures teachers == old(teachers) - {id}
      ensures students == old(students) && courses == old(courses)
      ensures GetTeacher(id) == None
    {
      deleted := id in teachers;
      teachers := teachers - {id};
    }

    method DeleteCourse(id: ObjectId) returns (deleted: bool)
      requires Valid()
      modifies this
      ensures Valid()
      ensures deleted <==> id in old(courses)
      ensures courses == old(courses) - {id}
      ensures students == old(students) && teachers == old(teachers)
      ensures GetCourse(id) == None
    {
      deleted := id in courses;
      courses := courses - {id};
    }

    // -------------------------------------------------------------------------
    // Update: read, merge with `??`, `$set`; the driver returns the document as
    // it was before the update.

    method UpdateStudent(id: ObjectId, name: Option<string>, email: Option<string>)
      returns (r: Result<Student>)
      requires Valid()
      modifies this
      ensures Valid()
      ensures teachers == old(teachers) && courses == old(courses)
      ensures id !in old(students) ==> r == Err(NotFound) && students == old(students)
      ensures id in old(students) ==>
                && r == Ok(FormModelToStudent(old(students)[id]))
                && students == old(students)[id := MergeStudent(old(students)[id], name, email)]
    {
      if id !in students {
        return Err(NotFound);
      }
      var student := students[id];
      var updatedName := Coalesce(name, student.name);
      var updatedEmail := Coalesce(email, student.email);
      students := students[id := student.(name := updatedName, email := updatedEmail)];
      r := Ok(FormModelToStudent(student));
    }

    method UpdateTeacher(id: ObjectId, name: Option<string>, email: Option<string>)
      returns (r: Result<Teacher>)
      requires Valid()
      modifies this
      ensures Valid()
      ensures students == old(students) && courses == old(courses)
      ensures id !in old(teachers) ==> r == Err(NotFound) && teachers == old(teachers)
      ensures id in old(teachers) ==>
                && r == Ok(FormModelToTeacher(old(teachers)[id]))
                && teachers == old(teachers)[id := MergeTeacher(old(teachers)[id], name, email)]
    {
      if id !in teachers {
        return Err(NotFound);
      }
      var teacher := teachers[id];
      var updatedName := Coalesce(name, teacher.name);
      var updatedEmail := Coalesce(email, teacher.email);
      teachers := teachers[id := teacher.(name := updatedName, email := updatedEmail)];
      r := Ok(FormModelToTeacher(teacher));
    }

    method UpdateCourse(id: ObjectId, title: Option<string>, description: Option<string>,
                        teacherId: Option<string>)
      returns (r: Result<Course>)
      requires Valid()
      modifies this
      ensures Valid()
      ensures students == old(students) && teachers == old(teachers)
      ensures id !in old(courses) ==> r == Err(NotFound) && courses == old(courses)
      ensures id in old(courses) ==>
                && r == Ok(FormModelToCourse(old(courses)[id]))
                && courses == old(courses)[id := MergeCourse(old(courses)[id], title, description, teacherId)]
    {
      if id !in courses {
        return Err(NotFound);
      }
      var course := courses[id];
      var updatedTitle := Coalesce(title, course.title);
      var updatedDescription := Coalesce(description, course.description);
      var updatedTeacherId := Coalesce(teacherId, course.teacherId);
      courses := courses[id := course.(title := updatedTitle, description := updatedDescription,
                                       teacherId := updatedTeacherId)];
      r := Ok(FormModelToCourse(course));
    }

    // -------------------------------------------------------------------------
    // Enrollment: only the target course's `studentIds` changes.

    method EnrollStudentInCourse(studentId: string, courseId: ObjectId) returns (r: Result<Course>)
      requires Valid()
      modifies this
      ensures Valid()
      ensures students == old(students) && teachers == old(teachers)
      ensures courseId !in old(courses) ==> r == Err(NotFound) && courses == old(courses)
      ensures courseId in old(courses) ==>
                && r == Ok(FormModelToCourse(old(courses)[courseId]))
                && courses == old(courses)[courseId := Enrolled(old(courses)[courseId], studentId)]
    {
      if courseId !in courses {
        return Err(NotFound);
      }
      var course := courses[courseId];
      var studentIds := course.studentIds;
      studentIds := studentIds + [studentId];
      courses := courses[courseId := course.(studentIds := studentIds)];
      r := Ok(FormModelToCourse(course));
    }

    method RemoveStudentFromCourse(studentId: string, courseId: ObjectId) returns (r: Result<Course>)
      requires Valid()
      modifies this
      ensures Valid()
      ensures students == old(students) && teachers == old(teachers)
      ensures courseId !in old(courses) ==> r == Err(NotFound) && courses == old(courses)
      ensures courseId in old(courses) ==>
                && r == Ok(FormModelToCourse(old(courses)[courseId]))
                && courses == old(courses)[courseId := Unenrolled(old(courses)[courseId], studentId)]
    {
      if courseId !in courses {
        return Err(NotFound);
      }
      var course := courses[courseId];
      var studentIds := course.studentIds;
      var index := IndexOf(studentIds, studentId);
      if index > -1 {
        RemoveFirstAt(studentIds, studentId, index);
        studentIds := studentIds[..index] + studentIds[index + 1..];
      }
      courses := courses[courseId := course.(studentIds := studentIds)];
      r := Ok(FormModelToCourse(course));
    }
  }

  // ---------------------------------------------------------------------------
  // The by-id queries as written take their collection from the request context
  // under the names `StudentModel`, `TeacherModel` and `CourseModel`, while the
  // server puts the collections there as `StudentCollection`, `TeacherCollection`
  // and `CourseCollection`. GetStudent, GetTeacher and GetCourse above read the
  // collection the server provides.

  /** The names under which the server puts the three collections into every request context. */
  const ServerContextKeys: set<string> := {"StudentCollection", "TeacherCollection", "CourseCollection"}

  /** The TypeError a JavaScript engine throws for `undefined.findOne(...)`. */
  const UndefinedFindOne: string := "Cannot read properties of undefined (reading 'findOne')"

  /** A by-id query as written: it reads the collection stored under `key` in a
      context holding `contextKeys`, then returns what `findOne` finds there (`found`). */
  function ByIdQueryAsWritten<T>(contextKeys: set<string>, key: string, found: Option<T>): (r: Result<Option<T>>)
    ensures r.Err? <==> key !in contextKeys
    ensures r.Ok? ==> r.value == found
  {
    if key in contextKeys then Ok(found) else Err(UndefinedFindOne)
  }

  /** Against the server's context every by-id query as written throws, even for
      an id the store holds; reading the collection under the name the server
      uses gives the answer of GetStudent, GetTeacher and GetCourse. */
  lemma ByIdQueriesThrowAsWritten(store: Store, id: ObjectId)
    requires store.Valid()
    ensures ByIdQueryAsWritten(ServerContextKeys, "StudentModel", store.GetStudent(id)) == Err(UndefinedFindOne)
    ensures ByIdQueryAsWritten(ServerContextKeys, "TeacherModel", store.GetTeacher(id)) == Err(UndefinedFindOne)
    ensures ByIdQueryAsWritten(ServerContextKeys, "CourseModel", store.GetCourse(id)) == Err(UndefinedFindOne)
    ensures ByIdQueryAsWritten(ServerContextKeys, "StudentCollection", store.GetStudent(id)) == Ok(store.GetStudent(id))
    ensures ByIdQueryAsWritten(ServerContextKeys, "TeacherCollection", store.GetTeacher(id)) == Ok(store.GetTeacher(id))
    ensures ByIdQueryAsWritten(ServerContextKeys, "CourseCollection", store.GetCourse(id)) == Ok(store.GetCourse(id))
  {
  }

  // ---------------------------------------------------------------------------
  // A client of the store: the create / enroll / remove walk-through.

  /** Creating a teacher, a course and a student, enrolling the student and
      removing them again leaves the course as created, with no members. */
  method EnrollmentWalkThrough() returns (final: Option<Course>)
    ensures final == Some(Course(IdString(2), "Math", "d", IdString(1), []))
  {
    var store := new Store();
    var teacher := store.CreateTeacher("Ana", "a@x.com", 1);
    var course := store.CreateCourse("Math", "d", teacher.id, 2);
    assert course.studentIds == [];
    var student := store.CreateStudent("Bo", "b@x.com", 3);
    var enrolled := store.EnrollStudentInCourse(student.id, 2);
    assert store.courses[2].studentIds == [student.id];
    var again := store.EnrollStudentInCourse(student.id, 2);
    assert store.courses[2].studentIds == [student.id, student.id];
    var removed := store.RemoveStudentFromCourse(student.id, 2);
    assert store.courses[2].studentIds == [student.id];
    removed := store.RemoveStudentFromCourse(student.id, 2);
    var deletedTwice := store.DeleteStudent(3);
    deletedTwice := store.DeleteStudent(3);
    assert !deletedTwice;
    final := store.GetCourse(2);
  }
}
