/** The entity records of the canister. Relations are embedded value snapshots:
    a Subject holds copies of Students and a Student holds copies of Subjects,
    so the two datatypes are mutually recursive and nothing is shared by reference. */
module Records {
  import opened Wrappers

  /** The canister's timestamp type: an unsigned 64-bit integer. */
  type nat64 = x: int | 0 <= x < 0x1_0000_0000_0000_0000

  datatype Subject = Subject(
    id: string,
    name: string,
    createdAt: nat64,
    updatedAt: Option<nat64>,
    students: seq<Student>)

  datatype Student = Student(
    id: string,
    name: string,
    password: string,
    subjects: seq<Subject>,
    createdAt: nat64,
    updatedAt: Option<nat64>)

  /** The update payload of a Student: every field except `id`, `createdAt`
      and `updatedAt`. */
  datatype StudentProps = StudentProps(
    name: string,
    password: string,
    subjects: seq<Subject>)

  datatype Assignment = Assignment(
    id: string,
    name: string,
    subject: Subject,
    isCompleted: bool,
    isSubmitted: bool,
    task: seq<string>,
    createdAt: nat64,
    updatedAt: Option<nat64>)

  datatype Submission = Submission(
    id: string,
    assignment: Assignment,
    student: Student,
    isSubmitted: bool,
    task: seq<string>,
    createdAt: nat64,
    updatedAt: Option<nat64>)

  /** Teachers and classes have a collection but no operations. */
  datatype Teacher = Teacher(
    id: string,
    name: string,
    password: string,
    subjects: seq<Subject>,
    createdAt: nat64,
    updatedAt: Option<nat64>)

  datatype Class = Class(
    id: string,
    name: string,
    students: seq<Student>,
    teacher: Teacher,
    createdAt: nat64,
    updatedAt: Option<nat64>)
}
