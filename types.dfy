/** The stored documents of the three collections ("models") and the shapes the
    API returns for them. The store-assigned identifier of a stored document is
    optional in its type, as the driver leaves it unset before insertion. */
module Types {
  import opened Wrappers
  import opened ObjectIds

  datatype StudentModel = StudentModel(
    id: Option<ObjectId>, name: string, email: string, enrolledCourses: seq<string>)

  datatype TeacherModel = TeacherModel(
    id: Option<ObjectId>, name: string, email: string, coursesTaught: seq<string>)

  datatype CourseModel = CourseModel(
    id: Option<ObjectId>, title: string, description: string, teacherId: string,
    studentIds: seq<string>)

  datatype Student = Student(
    id: string, name: string, email: string, enrolledCourses: seq<string>)

  datatype Teacher = Teacher(
    id: string, name: string, email: string, coursesTaught: seq<string>)

  datatype Course = Course(
    id: string, title: string, description: string, teacherId: string,
    studentIds: seq<string>)
}
