/** The canister's state and entry points. The state is six independent
    collections; each entry point takes the state (and, where the canister would
    ask a service, the fresh id and the current time) and returns its result
    together with the next state. Reads return only a result. */
module Canister {
  import opened Wrappers
  import opened Records
  import Repository

  datatype State = State(
    subjects: map<string, Subject>,
    students: map<string, Student>,
    assignments: map<string, Assignment>,
    submissions: map<string, Submission>,
    teachers: map<string, Teacher>,
    classes: map<string, Class>)

  /** What a writing entry point hands back, and the state it leaves behind. */
  datatype Reply<T> = Reply(result: Result<T, string>, state: State)

  /** Every record of every collection is stored under its own id. */
  ghost predicate Valid(s: State) {
    && Repository.KeyedBy(s.subjects, (x: Subject) => x.id)
    && Repository.KeyedBy(s.students, (x: Student) => x.id)
    && Repository.KeyedBy(s.assignments, (x: Assignment) => x.id)
    && Repository.KeyedBy(s.submissions, (x: Submission) => x.id)
    && Repository.KeyedBy(s.teachers, (x: Teacher) => x.id)
    && Repository.KeyedBy(s.classes, (x: Class) => x.id)
  }

  // ---------------------------------------------------------------- Student

  method GetStudents(s: State) returns (r: Result<seq<Student>, string>, ghost order: seq<string>)
    ensures r.Ok?
    ensures Repository.Enumerates(s.students, order, r.value)
  {
    var values;
    values, order := Repository.List(s.students);
    r := Ok(values);
  }

  function GetStudent(s: State, id: string): (r: Result<Student, string>)
    ensures r.Ok? <==> id in s.students
    ensures r.Ok? ==> r.value == s.students[id]
    ensures r.Err? ==> r.error == "No student found"
  {
    Repository.Find(s.students, id, "No student found")
  }

  function CreateStudent(s: State, id: string, name: string, password: string, now: nat64): (r: Reply<Student>)
    requires id !in s.students
    ensures r.result.Ok?
    ensures r.result.value.id == id && r.result.value.name == name && r.result.value.password == password
    ensures r.result.value.subjects == [] && r.result.value.createdAt == now && r.result.value.updatedAt == None
    ensures r.state == s.(students := s.students[id := r.result.value])
    ensures Valid(s) ==> Valid(r.state)
  {
    var student := Student(id, name, password, [], now, None);
    Reply(Ok(student), s.(students := Repository.Insert(s.students, id, student)))
  }

  /** The stored student with the payload spread over it and a fresh update time. */
  function MergeStudent(stored: Student, payload: StudentProps, now: nat64): (merged: Student) {
    stored.(name := payload.name, password := payload.password, subjects := payload.subjects,
            updatedAt := Some(now))
  }

  function UpdateStudent(s: State, id: string, payload: StudentProps, now: nat64): (r: Reply<Student>)
    ensures id !in s.students ==> r == Reply(Err("Update failed"), s)
    ensures id in s.students ==>
      && r.result.Ok?
      && r.state == s.(students := s.students[id := r.result.value])
      && r.result.value == Student(id := s.students[id].id, name := payload.name,
                                   password := payload.password, subjects := payload.subjects,
                                   createdAt := s.students[id].createdAt, updatedAt := Some(now))
    ensures Valid(s) ==> Valid(r.state)
    ensures Valid(s) && id in s.students ==> r.result.value.id == id
  {
    var (result, students) :=
      Repository.Modify(s.students, id, (x: Student) => MergeStudent(x, payload, now), "Update failed");
    Reply(result, s.(students := students))
  }

  function DeleteStudent(s: State, id: string): (r: Reply<Student>)
    ensures id in s.students ==> r == Reply(Ok(s.students[id]), s.(students := s.students - {id}))
    ensures id !in s.students ==> r == Reply(Err("Delete failed"), s)
    ensures Valid(s) ==> Valid(r.state)
  {
    var (result, students) := Repository.Remove(s.students, id, "Delete failed");
    Reply(result, s.(students := students))
  }

  // ---------------------------------------------------------------- Subject

  method GetSubjects(s: State) returns (r: Result<seq<Subject>, string>, ghost order: seq<string>)
    ensures r.Ok?
    ensures Repository.Enumerates(s.subjects, order, r.value)
  {
    var values;
    values, order := Repository.List(s.subjects);
    r := Ok(values);
  }

  function GetSubject(s: State, id: string): (r: Result<Subject, string>)
    ensures r.Ok? <==> id in s.subjects
    ensures r.Ok? ==> r.value == s.subjects[id]
    ensures r.Err? ==> r.error == "No subject found"
  {
    Repository.Find(s.subjects, id, "No subject found")
  }

  function CreateSubject(s: State, id: string, name: string, now: nat64): (r: Reply<Subject>)
    requires id !in s.subjects
    ensures r.result.Ok?
    ensures r.result.value.id == id && r.result.value.name == name && r.result.value.students == []
    ensures r.result.value.createdAt == now && r.result.value.updatedAt == None
    ensures r.state == s.(subjects := s.subjects[id := r.result.value])
    ensures Valid(s) ==> Valid(r.state)
  {
    var subject := Subject(id, name, now, None, []);
    Reply(Ok(subject), s.(subjects := Repository.Insert(s.subjects, id, subject)))
  }

  function MergeSubject(stored: Subject, name: string, now: nat64): (merged: Subject) {
    stored.(name := name, updatedAt := Some(now))
  }

  function UpdateSubject(s: State, id: string, name: string, now: nat64): (r: Reply<Subject>)
    ensures id !in s.subjects ==> r == Reply(Err("Update failed"), s)
    ensures id in s.subjects ==>
      && r.result.Ok?
      && r.state == s.(subjects := s.subjects[id := r.result.value])
      && r.result.value == Subject(id := s.subjects[id].id, name := name,
                                   createdAt := s.subjects[id].createdAt, updatedAt := Some(now),
                                   students := s.subjects[id].students)
    ensures Valid(s) ==> Valid(r.state)
    ensures Valid(s) && id in s.subjects ==> r.result.value.id == id
  {
    var (result, subjects) :=
      Repository.Modify(s.subjects, id, (x: Subject) => MergeSubject(x, name, now), "Update failed");
    Reply(result, s.(subjects := subjects))
  }

  function DeleteSubject(s: State, id: string): (r: Reply<Subject>)
    ensures id in s.subjects ==> r == Reply(Ok(s.subjects[id]), s.(subjects := s.subjects - {id}))
    ensures id !in s.subjects ==> r == Reply(Err("Delete failed"), s)
    ensures Valid(s) ==> Valid(r.state)
  {
    var (result, subjects) := Repository.Remove(s.subjects, id, "Delete failed");
    Reply(result, s.(subjects := subjects))
  }

  // ------------------------------------------------------------- Assignment

  method GetAssignments(s: State) returns (r: Result<seq<Assignment>, string>, ghost order: seq<string>)
    ensures r.Ok?
    ensures Repository.Enumerates(s.assignments, order, r.value)
  {
    var values;
    values, order := Repository.List(s.assignments);
    r := Ok(values);
  }

  function GetAssignment(s: State, id: string): (r: Result<Assignment, string>)
    ensures r.Ok? <==> id in s.assignments
    ensures r.Ok? ==> r.value == s.assignments[id]
    ensures r.Err? ==> r.error == "No assignment found"
  {
    Repository.Find(s.assignments, id, "No assignment found")
  }

  function CreateAssignment(s: State, id: string, name: string, subject: Subject, task: seq<string>, now: nat64)
    : (r: Reply<Assignment>)
    requires id !in s.assignments
    ensures r.result.Ok?
    ensures r.result.value.id == id && r.result.value.name == name
    ensures r.result.value.subject == subject && r.result.value.task == task
    ensures !r.result.value.isCompleted && !r.result.value.isSubmitted
    ensures r.result.value.createdAt == now && r.result.value.updatedAt == None
    ensures r.state == s.(assignments := s.assignments[id := r.result.value])
    ensures Valid(s) ==> Valid(r.state)
  {
    var assignment := Assignment(id, name, subject, false, false, task, now, None);
    Reply(Ok(assignment), s.(assignments := Repository.Insert(s.assignments, id, assignment)))
  }

  function MergeAssignment(stored: Assignment, name: string, subject: Subject, task: seq<string>, now: nat64)
    : (merged: Assignment)
  {
    stored.(name := name, subject := subject, task := task, updatedAt := Some(now))
  }

  function UpdateAssignment(s: State, id: string, name: string, subject: Subject, task: seq<string>, now: nat64)
    : (r: Reply<Assignment>)
    ensures id !in s.assignments ==> r == Reply(Err("Update failed"), s)
    ensures id in s.assignments ==>
      && r.result.Ok?
      && r.state == s.(assignments := s.assignments[id := r.result.value])
      && r.result.value == Assignment(id := s.assignments[id].id, name := name, subject := subject,
                                      isCompleted := s.assignments[id].isCompleted,
                                      isSubmitted := s.assignments[id].isSubmitted, task := task,
                                      createdAt := s.assignments[id].createdAt, updatedAt := Some(now))
    ensures Valid(s) ==> Valid(r.state)
    ensures Valid(s) && id in s.assignments ==> r.result.value.id == id
  {
    var (result, assignments) :=
      Repository.Modify(s.assignments, id, (x: Assignment) => MergeAssignment(x, name, subject, task, now),
                        "Update failed");
    Reply(result, s.(assignments := assignments))
  }

  function DeleteAssignment(s: State, id: string): (r: Reply<Assignment>)
    ensures id in s.assignments ==> r == Reply(Ok(s.assignments[id]), s.(assignments := s.assignments - {id}))
    ensures id !in s.assignments ==> r == Reply(Err("Delete failed"), s)
    ensures Valid(s) ==> Valid(r.state)
  {
    var (result, assignments) := Repository.Remove(s.assignments, id, "Delete failed");
    Reply(result, s.(assignments := assignments))
  }

  // ------------------------------------------------------------- Submission

  method GetSubmissions(s: State) returns (r: Result<seq<Submission>, string>, ghost order: seq<string>)
    ensures r.Ok?
    ensures Repository.Enumerates(s.submissions, order, r.value)
  {
    var values;
    values, order := Repository.List(s.submissions);
    r := Ok(values);
  }

  function GetSubmission(s: State, id: string): (r: Result<Submission, string>)
    ensures r.Ok? <==> id in s.submissions
    ensures r.Ok? ==> r.value == s.submissions[id]
    ensures r.Err? ==> r.error == "No submission found"
  {
    Repository.Find(s.submissions, id, "No submission found")
  }

  /** Whatever the caller intends, a new submission is marked submitted. */
  function CreateSubmission(s: State, id: string, student: Student, assignment: Assignment, task: seq<string>,
                            now: nat64): (r: Reply<Submission>)
    requires id !in s.submissions
    ensures r.result.Ok?
    ensures r.result.value.id == id && r.result.value.student == student
    ensures r.result.value.assignment == assignment && r.result.value.task == task
    ensures r.result.value.isSubmitted
    ensures r.result.value.createdAt == now && r.result.value.updatedAt == None
    ensures r.state == s.(submissions := s.submissions[id := r.result.value])
    ensures Valid(s) ==> Valid(r.state)
  {
    var submission := Submission(id, assignment, student, true, task, now, None);
    Reply(Ok(submission), s.(submissions := Repository.Insert(s.submissions, id, submission)))
  }

  function MergeSubmission(stored: Submission, student: Student, assignment: Assignment, task: seq<string>,
                           now: nat64): (merged: Submission)
  {
    stored.(student := student, assignment := assignment, task := task, updatedAt := Some(now))
  }

  function UpdateSubmission(s: State, id: string, student: Student, assignment: Assignment, task: seq<string>,
                            now: nat64): (r: Reply<Submission>)
    ensures id !in s.submissions ==> r == Reply(Err("Update failed"), s)
    ensures id in s.submissions ==>
      && r.result.Ok?
      && r.state == s.(submissions := s.submissions[id := r.result.value])
      && r.result.value == Submission(id := s.submissions[id].id, assignment := assignment, student := student,
                                      isSubmitted := s.submissions[id].isSubmitted, task := task,
                                      createdAt := s.submissions[id].createdAt, updatedAt := Some(now))
    ensures Valid(s) ==> Valid(r.state)
    ensures Valid(s) && id in s.submissions ==> r.result.value.id == id
  {
    var (result, submissions) :=
      Repository.Modify(s.submissions, id, (x: Submission) => MergeSubmission(x, student, assignment, task, now),
                        "Update failed");
    Reply(result, s.(submissions := submissions))
  }

  function DeleteSubmission(s: State, id: string): (r: Reply<Submission>)
    ensures id in s.submissions ==> r == Reply(Ok(s.submissions[id]), s.(submissions := s.submissions - {id}))
    ensures id !in s.submissions ==> r == Reply(Err("Delete failed"), s)
    ensures Valid(s) ==> Valid(r.state)
  {
    var (result, submissions) := Repository.Remove(s.submissions, id, "Delete failed");
    Reply(result, s.(submissions := submissions))
  }
}
