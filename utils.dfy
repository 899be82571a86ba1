/** Conversion of stored documents to their API shape: the identifier becomes
    its string form, every other field is passed through as it is. Each
    converter asserts that the identifier is present. */
module Utils {
  import opened Wrappers
  import opened ObjectIds
  import opened Types

  function FormModelToStudent(m: StudentModel): (s: Student)
    requires m.id.Some?
    ensures s.id == IdString(m.id.value) && |s.id| == IdDigits
    ensures s.name == m.name && s.email == m.email
    ensures s.enrolledCourses == m.enrolledCourses
  {
    Student(IdString(m.id.value), m.name, m.email, m.enrolledCourses)
  }

  function FormModelToTeacher(m: TeacherModel): (t: Teacher)
    requires m.id.Some?
    ensures t.id == IdString(m.id.value) && |t.id| == IdDigits
    ensures t.name == m.name && t.email == m.email
    ensures t.coursesTaught == m.coursesTaught
  {
    Teacher(IdString(m.id.value), m.name, m.email, m.coursesTaught)
  }

  function FormModelToCourse(m: CourseModel): (c: Course)
    requires m.id.Some?
    ensures c.id == IdString(m.id.value) && |c.id| == IdDigits
    ensures c.title == m.title && c.description == m.description
    ensures c.teacherId == m.teacherId && c.studentIds == m.studentIds
  {
    Course(IdString(m.id.value), m.title, m.description, m.teacherId, m.studentIds)
  }

  /** Nothing is lost in conversion: two documents with the same API form are the same document. */
  lemma FormModelToStudentInjective(a: StudentModel, b: StudentModel)
    requires a.id.Some? && b.id.Some?
    ensures FormModelToStudent(a) == FormModelToStudent(b) <==> a == b
  {
    IdStringInjective(a.id.value, b.id.value);
  }

  lemma FormModelToTeacherInjective(a: TeacherModel, b: TeacherModel)
    requires a.id.Some? && b.id.Some?
    ensures FormModelToTeacher(a) == FormModelToTeacher(b) <==> a == b
  {
    IdStringInjective(a.id.value, b.id.value);
  }

  lemma FormModelToCourseInjective(a: CourseModel, b: CourseModel)
    requires a.id.Some? && b.id.Some?
    ensures FormModelToCourse(a) == FormModelToCourse(b) <==> a == b
  {
    IdStringInjective(a.id.value, b.id.value);
  }
}
