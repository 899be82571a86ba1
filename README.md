# School records API: resolver model

This project models the resolver layer of a GraphQL API over three document
collections: students, teachers and courses. The model covers the six queries
(`students`, `student`, `teachers`, `teacher`, `courses`, `course`) and the
eleven mutations (`create*`, `delete*`, `update*`, `enrollStudentInCourse`,
`removeStudentFromCourse`). It also covers the converters that turn a stored
document into its API shape.

The document database is replaced by a `Store` class (module `Resolvers`). The
class holds three maps, one per collection, from an `ObjectId` to the stored
document. `Store.Valid()` says that every stored document carries the
identifier it is stored under. Each resolver is a method or function of the
store and runs as one atomic step.

- `ObjectIds` (ids.dfy): an `ObjectId` is a 12-byte value. Its `toString()`
  is 24 lower-case hex digits, and distinct ids give distinct strings.
- `Types` (types.dfy): the stored documents (`StudentModel`, `TeacherModel`,
  `CourseModel`) and the API shapes (`Student`, `Teacher`, `Course`).
- `Utils` (utils.dfy): the three `formModelTo*` converters.
- `Arrays` (arrays.dfy): the JavaScript array operations the resolvers use.
  These are `map`, `indexOf`, and the removal of a first occurrence that
  `indexOf` plus `splice(index, 1)` perform.
- `Resolvers` (resolvers.dfy): the `??` merges of the update resolvers, the
  enroll/unenroll updates of a course, the store and its resolvers, and a
  walk-through client.

Three behaviours of the code are easy to misread; the model follows the code:

- `update*`, `enrollStudentInCourse` and `removeStudentFromCourse` return what
  `findOneAndUpdate` returns. By default that is the document as it was before
  the update, not the updated one. The methods return the converted pre-update
  document, and their `ensures` give the updated store separately.
- `??` falls back only on a missing value. A supplied empty string therefore
  replaces the stored field: `Some("")` sets `""`.
- The by-id queries as written never reach the store (see "## Findings").

## Model

| member | source | states |
|---|---|---|
| ObjectIds.IdString | utils.ts:5 | The string form of an ObjectId is exactly 24 lower-case hex digits. |
| ObjectIds.IdStringInjective | utils.ts:5 | Two ObjectIds have the same string form iff they are equal, so an API id names one stored document. |
| Utils.FormModelToStudent | utils.ts:3-10 | Requires the stored `_id` to be present. The API id is the string form of `_id`. `name`, `email` and `enrolledCourses` pass through unchanged, with the list in the same order. |
| Utils.FormModelToTeacher | utils.ts:12-19 | Requires `_id` to be present. The API id is its string form. `name`, `email` and `coursesTaught` pass through unchanged. |
| Utils.FormModelToCourse | utils.ts:21-29 | Requires `_id` to be present. The API id is its string form. `title`, `description`, `teacherId` and `studentIds` pass through unchanged. |
| Utils.FormModelToStudentInjective | utils.ts:3-10 | Conversion loses nothing: two stored students convert to the same API student iff they are the same document. |
| Utils.FormModelToTeacherInjective | utils.ts:12-19 | Two stored teachers convert to the same API teacher iff they are equal. |
| Utils.FormModelToCourseInjective | utils.ts:21-29 | Two stored courses convert to the same API course iff they are equal. |
| Arrays.MapSeq | resolvers.ts:13-15 | `map` gives a sequence of the same length whose i-th element is the converter applied to the i-th stored document. |
| Arrays.IndexOf | resolvers.ts:203 | `indexOf` gives -1 iff the id does not occur. Otherwise it gives an index holding the id with no occurrence before it. |
| Arrays.RemoveFirst | resolvers.ts:202-206 | Removing the first occurrence shortens the list by one when the id occurs. It leaves the list unchanged when the id does not occur. |
| Arrays.RemoveFirstAt | resolvers.ts:203-205 | When `index` is the first occurrence, `splice(index, 1)` equals removing the first occurrence. The elements before and after keep their order. |
| Arrays.RemoveFirstMultiset | resolvers.ts:202-206 | Exactly one copy of the id is removed if there is one. No other element is added or lost. |
| Arrays.RemoveFirstAfterAppend | resolvers.ts:187-206 | If the id was absent, push followed by remove-first restores the list. If it was present, an earlier copy goes and the pushed one remains last. |
| Resolvers.MergeStudent | resolvers.ts:140-145 | Each of `name` and `email` takes the supplied value when there is one, an empty string included, and otherwise the stored value. `_id` and `enrolledCourses` are untouched. With no arguments the document is unchanged. |
| Resolvers.MergeTeacher | resolvers.ts:156-161 | The same merge for `name` and `email`. `_id` and `coursesTaught` are untouched. With no arguments the document is unchanged. |
| Resolvers.MergeCourse | resolvers.ts:171-177 | Each of `title`, `description` and `teacherId` takes the supplied value, otherwise the stored one. `_id` and `studentIds` are never touched. With no arguments the course is unchanged. |
| Resolvers.MergeCourseIdempotent | resolvers.ts:171-177 | Repeating a course update with the same arguments changes nothing further. |
| Resolvers.Enrolled | resolvers.ts:187-191 | Enrolling puts the student id after the old list, so the length grows by one. The id's count grows by one even when it is already enrolled. No other course field changes. |
| Resolvers.Unenrolled | resolvers.ts:202-210 | If the id occurs, the length and the id's count drop by one. Otherwise the course is unchanged. Other ids keep their counts, and no other course field changes. |
| Resolvers.EnrollThenUnenroll | resolvers.ts:180-212 | For a student not enrolled, enrolling and then removing them restores the course exactly. |
| Resolvers.EnrollThenUnenrollMembers | resolvers.ts:180-212 | For any course, enrolling and then removing a student leaves the same members with the same counts. |
| Resolvers.Find | resolvers.ts:12 | `find().toArray()` lists every key of the collection exactly once, in an order the store chooses, with each key's document. |
| Resolvers.ListedAll | resolvers.ts:12-15 | Converting such a listing misses no stored document: every document's API form is in the result. |
| Resolvers.ListedDistinct | resolvers.ts:12-15 | When each entry's id is the string form of its own key and the keys are distinct, no two entries share an id. |
| Resolvers.Store.ListStudents | resolvers.ts:7-16 | Query `students` gives one entry per stored student, contains every converted student, and repeats no id. Together these make it an ordering of the converted collection: the n distinct converted students fill all n entries. |
| Resolvers.Store.ListTeachers | resolvers.ts:32-41 | Query `teachers`: the same, for the teacher collection. |
| Resolvers.Store.ListCourses | resolvers.ts:57-66 | Query `courses`: the same, for the course collection. |
| Resolvers.Store.GetStudent | resolvers.ts:17-31 | The result is null iff no student has the id. Otherwise it is the converted document, whose API id is the requested id's string form. The store is only read. |
| Resolvers.Store.GetTeacher | resolvers.ts:42-56 | The same, for teachers. |
| Resolvers.Store.GetCourse | resolvers.ts:67-81 | The same, for courses. |
| Resolvers.Store.CreateStudent | resolvers.ts:85-91 | Adds a student under the new id with the given name and email and an empty `enrolledCourses`. Nothing else changes. It returns that student, and a by-id query for the new id now returns it. |
| Resolvers.Store.CreateTeacher | resolvers.ts:92-98 | The same, for a teacher with an empty `coursesTaught`. |
| Resolvers.Store.CreateCourse | resolvers.ts:99-105 | The same, for a course with the given title, description and teacherId and an empty `studentIds`. |
| Resolvers.Store.DeleteStudent | resolvers.ts:106-114 | Returns true iff the id was stored. Afterwards no student has the id, every other record is unchanged, and nothing cascades. A second delete therefore returns false. |
| Resolvers.Store.DeleteTeacher | resolvers.ts:115-123 | The same, for teachers. Courses that name the teacher keep the reference. |
| Resolvers.Store.DeleteCourse | resolvers.ts:124-132 | The same, for courses. |
| Resolvers.Store.UpdateStudent | resolvers.ts:133-148 | For a missing id it fails with "No encontrado" and nothing changes. Otherwise only that student becomes `MergeStudent` of the old document, and the converted pre-update document is returned. |
| Resolvers.Store.UpdateTeacher | resolvers.ts:149-163 | The same, with `MergeTeacher`. |
| Resolvers.Store.UpdateCourse | resolvers.ts:164-179 | The same, with `MergeCourse`. |
| Resolvers.Store.EnrollStudentInCourse | resolvers.ts:180-194 | For a missing course it fails with "No encontrado" and nothing changes. Otherwise only that course's `studentIds` becomes `Enrolled`. All other courses, students and teachers are unchanged. It returns the pre-update course. |
| Resolvers.Store.RemoveStudentFromCourse | resolvers.ts:195-212 | For a missing course it fails with "No encontrado" and nothing changes. Otherwise only that course becomes `Unenrolled`, and an id that does not occur is no error. It returns the pre-update course. |
| Resolvers.ByIdQueryAsWritten | resolvers.ts:17-31 | A by-id query as written throws iff its context lacks the key it reads. Otherwise it returns what `findOne` finds. |
| Resolvers.ByIdQueriesThrowAsWritten | resolvers.ts:20-24 | With the server's context, each of the three by-id queries as written throws for every id. Reading the key the server supplies gives `GetStudent`, `GetTeacher` or `GetCourse`. |
| Resolvers.EnrollmentWalkThrough | resolvers.ts:85-212 | Walk-through: create teacher T1, course C1 and student S1. Enroll S1 twice, giving two copies. Remove once, leaving one copy, then remove again. Delete S1 twice; the second delete returns false. Course C1 then reads back as created, with no members. |

## Findings

| source | as written | input that shows it | evidently intended | confidence | as-written member | corrected member |
|---|---|---|---|---|---|---|
| resolvers.ts:20-24, 45-49, 70-74 | The by-id queries read `context.StudentModel`, `context.TeacherModel` and `context.CourseModel`. The server context (main.ts:30) only holds `StudentCollection`, `TeacherCollection` and `CourseCollection`, so `findOne` is called on `undefined` and throws a TypeError. | `student(id: <id of a stored student>)`: the query throws instead of returning the student. | Read `StudentCollection`, `TeacherCollection` and `CourseCollection`, like the list queries. Then the query returns the converted document or null. | high; not executed | Resolvers.ByIdQueryAsWritten, Resolvers.ByIdQueriesThrowAsWritten | Resolvers.Store.GetStudent, Resolvers.Store.GetTeacher, Resolvers.Store.GetCourse |

## Left out

- main.ts is not part of this model: reading `MONGO_URL`, connecting to the database and starting the server are I/O. Only its three context key names are used, by `ServerContextKeys`.
- The GraphQL schema and types.ts are not part of this model. The document and API shapes are taken from the fields that utils.ts and resolvers.ts read and write.
- Parsing a client id string with `new ObjectId(id)` is not modelled. The resolvers take an already-parsed `ObjectId`, so the malformed-id error is not modelled.
- The driver generates a fresh ObjectId for each insert on the client side. The model takes that id as the `insertedId` parameter of each create method and requires it to be unused, so the duplicate-key error of an insert under a used id is left out.
- The order in which `find()` returns documents is the store's own and is left unspecified. `Find` picks an arbitrary order.
- Asynchrony and the read-then-write race between concurrent updates are left out. Each resolver is one atomic step, so the document read is the one that is updated.
- Store and connection failures, and the `console.log` in `updateStudent`, are left out.
- Resolvers.ByIdQueryAsWritten: the thrown error is modelled by its message only, as a V8-based runtime words it.
