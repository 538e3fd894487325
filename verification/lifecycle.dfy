/** Properties that relate several entry-point calls: a record's life from
    create through update to delete, the copy semantics of embedded relations,
    and the effect of many creates. */
module Lifecycle {
  import opened Wrappers
  import opened Records
  import opened Canister

  // ------------------------------------------------- create, then read back

  lemma StudentCreateThenGet(s: State, id: string, name: string, password: string, now: nat64)
    requires id !in s.students
    ensures var r := CreateStudent(s, id, name, password, now);
      && GetStudent(r.state, id) == r.result
      && GetStudent(r.state, id).value == Student(id, name, password, [], now, None)
  {
  }

  lemma SubjectCreateThenGet(s: State, id: string, name: string, now: nat64)
    requires id !in s.subjects
    ensures var r := CreateSubject(s, id, name, now);
      && GetSubject(r.state, id) == r.result
      && GetSubject(r.state, id).value == Subject(id, name, now, None, [])
  {
  }

  lemma AssignmentCreateThenGet(s: State, id: string, name: string, subject: Subject, task: seq<string>, now: nat64)
    requires id !in s.assignments
    ensures var r := CreateAssignment(s, id, name, subject, task, now);
      && GetAssignment(r.state, id) == r.result
      && GetAssignment(r.state, id).value == Assignment(id, name, subject, false, false, task, now, None)
  {
  }

  lemma SubmissionCreateThenGet(s: State, id: string, student: Student, assignment: Assignment,
                                task: seq<string>, now: nat64)
    requires id !in s.submissions
    ensures var r := CreateSubmission(s, id, student, assignment, task, now);
      && GetSubmission(r.state, id) == r.result
      && GetSubmission(r.state, id).value == Submission(id, assignment, student, true, task, now, None)
  {
  }

  // ------------------------------------------- delete undoes a fresh create

  lemma StudentDeleteUndoesCreate(s: State, id: string, name: string, password: string, now: nat64)
    requires id !in s.students
    ensures var r := CreateStudent(s, id, name, password, now);
      DeleteStudent(r.state, id) == Reply(r.result, s)
  {
  }

  lemma SubjectDeleteUndoesCreate(s: State, id: string, name: string, now: nat64)
    requires id !in s.subjects
    ensures var r := CreateSubject(s, id, name, now);
      DeleteSubject(r.state, id) == Reply(r.result, s)
  {
  }

  lemma AssignmentDeleteUndoesCreate(s: State, id: string, name: string, subject: Subject, task: seq<string>,
                                     now: nat64)
    requires id !in s.assignments
    ensures var r := CreateAssignment(s, id, name, subject, task, now);
      DeleteAssignment(r.state, id) == Reply(r.result, s)
  {
  }

  lemma SubmissionDeleteUndoesCreate(s: State, id: string, student: Student, assignment: Assignment,
                                     task: seq<string>, now: nat64)
    requires id !in s.submissions
    ensures var r := CreateSubmission(s, id, student, assignment, task, now);
      DeleteSubmission(r.state, id) == Reply(r.result, s)
  {
  }

  // ------------------------------------------- update, then read back

  /** A later update leaves no trace of an earlier one, so payloads are not
      accumulated, and the record read back carries the later payload's fields,
      relations included. */
  lemma StudentUpdateLastWriterWins(s: State, id: string, first: StudentProps, second: StudentProps,
                                    earlier: nat64, later: nat64)
    ensures UpdateStudent(UpdateStudent(s, id, first, earlier).state, id, second, later)
         == UpdateStudent(s, id, second, later)
    ensures id in s.students ==>
      GetStudent(UpdateStudent(s, id, second, later).state, id) == UpdateStudent(s, id, second, later).result
    ensures id in s.students ==>
      var v := UpdateStudent(UpdateStudent(s, id, first, earlier).state, id, second, later).result.value;
      v.name == second.name && v.password == second.password && v.subjects == second.subjects
  {
  }

  lemma SubjectUpdateLastWriterWins(s: State, id: string, first: string, second: string,
                                    earlier: nat64, later: nat64)
    ensures UpdateSubject(UpdateSubject(s, id, first, earlier).state, id, second, later)
         == UpdateSubject(s, id, second, later)
    ensures id in s.subjects ==>
      GetSubject(UpdateSubject(s, id, second, later).state, id) == UpdateSubject(s, id, second, later).result
    ensures id in s.subjects ==>
      UpdateSubject(UpdateSubject(s, id, first, earlier).state, id, second, later).result.value.name == second
  {
  }

  lemma AssignmentUpdateLastWriterWins(s: State, id: string,
                                       name1: string, subject1: Subject, task1: seq<string>, earlier: nat64,
                                       name2: string, subject2: Subject, task2: seq<string>, later: nat64)
    ensures UpdateAssignment(UpdateAssignment(s, id, name1, subject1, task1, earlier).state,
                             id, name2, subject2, task2, later)
         == UpdateAssignment(s, id, name2, subject2, task2, later)
    ensures id in s.assignments ==>
      GetAssignment(UpdateAssignment(s, id, name2, subject2, task2, later).state, id)
        == UpdateAssignment(s, id, name2, subject2, task2, later).result
    ensures id in s.assignments ==>
      var v := UpdateAssignment(UpdateAssignment(s, id, name1, subject1, task1, earlier).state,
                                id, name2, subject2, task2, later).result.value;
      v.name == name2 && v.subject == subject2 && v.task == task2
  {
  }

  lemma SubmissionUpdateLastWriterWins(s: State, id: string,
                                       student1: Student, assignment1: Assignment, task1: seq<string>, earlier: nat64,
                                       student2: Student, assignment2: Assignment, task2: seq<string>, later: nat64)
    ensures UpdateSubmission(UpdateSubmission(s, id, student1, assignment1, task1, earlier).state,
                             id, student2, assignment2, task2, later)
         == UpdateSubmission(s, id, student2, assignment2, task2, later)
    ensures id in s.submissions ==>
      GetSubmission(UpdateSubmission(s, id, student2, assignment2, task2, later).state, id)
        == UpdateSubmission(s, id, student2, assignment2, task2, later).result
    ensures id in s.submissions ==>
      var v := UpdateSubmission(UpdateSubmission(s, id, student1, assignment1, task1, earlier).state,
                                id, student2, assignment2, task2, later).result.value;
      v.student == student2 && v.assignment == assignment2 && v.task == task2
  {
  }

  /** An update keeps the set of ids of its collection: it never creates. */
  lemma UpdateNeverCreates(s: State, id: string, payload: StudentProps, name: string, subject: Subject,
                           student: Student, assignment: Assignment, task: seq<string>, now: nat64)
    ensures UpdateStudent(s, id, payload, now).state.students.Keys == s.students.Keys
    ensures UpdateSubject(s, id, name, now).state.subjects.Keys == s.subjects.Keys
    ensures UpdateAssignment(s, id, name, subject, task, now).state.assignments.Keys == s.assignments.Keys
    ensures UpdateSubmission(s, id, student, assignment, task, now).state.submissions.Keys == s.submissions.Keys
  {
  }

  // --------------------------------------------------------- delete is final

  /** After a delete the id is gone: reading it fails and deleting it again fails. */
  lemma DeleteIsFinal(s: State, id: string)
    ensures var t := DeleteStudent(s, id).state;
      GetStudent(t, id) == Err("No student found") && DeleteStudent(t, id) == Reply(Err("Delete failed"), t)
    ensures var t := DeleteSubject(s, id).state;
      GetSubject(t, id) == Err("No subject found") && DeleteSubject(t, id) == Reply(Err("Delete failed"), t)
    ensures var t := DeleteAssignment(s, id).state;
      GetAssignment(t, id) == Err("No assignment found") && DeleteAssignment(t, id) == Reply(Err("Delete failed"), t)
    ensures var t := DeleteSubmission(s, id).state;
      GetSubmission(t, id) == Err("No submission found") && DeleteSubmission(t, id) == Reply(Err("Delete failed"), t)
  {
  }

  // ---------------------------------------------- relations are snapshots

  /** An assignment keeps the subject it was given: renaming that subject in
      its own collection afterwards does not reach the embedded copy. */
  lemma EmbeddedSubjectIsSnapshot(s: State, aid: string, name: string, subject: Subject, task: seq<string>,
                                  now: nat64, newName: string, later: nat64)
    requires aid !in s.assignments
    ensures var s1 := CreateAssignment(s, aid, name, subject, task, now).state;
      var s2 := UpdateSubject(s1, subject.id, newName, later).state;
      GetAssignment(s2, aid).Ok? && GetAssignment(s2, aid).value.subject == subject
  {
  }

  // ------------------------------------------------------------ many creates

  /** One `createStudent` call: the id uuid would have produced, its arguments
      and the time it ran at. */
  datatype NewStudent = NewStudent(id: string, name: string, password: string, now: nat64)

  /** The ids are pairwise distinct and none is stored yet. */
  ghost predicate FreshIds(s: State, calls: seq<NewStudent>) {
    && (forall i, j :: 0 <= i < j < |calls| ==> calls[i].id != calls[j].id)
    && (forall i :: 0 <= i < |calls| ==> calls[i].id !in s.students)
  }

  /** The state after running `calls` in order. */
  function CreateStudents(s: State, calls: seq<NewStudent>): (t: State)
    requires FreshIds(s, calls)
    decreases |calls|
  {
    if calls == [] then s
    else
      var c := calls[0];
      var next := CreateStudent(s, c.id, c.name, c.password, c.now).state;
      assert FreshIds(next, calls[1..]) by {
        forall i | 0 <= i < |calls[1..]|
          ensures calls[1..][i].id !in next.students
        {
          assert calls[1..][i] == calls[i + 1];
        }
      }
      CreateStudents(next, calls[1..])
  }

  /** N creates with fresh ids store N new students, one under each id, each
      as created, and leave every earlier student in place. */
  lemma {:induction false} CreatesYieldDistinctRecords(s: State, calls: seq<NewStudent>)
    requires FreshIds(s, calls)
    ensures var t := CreateStudents(s, calls);
      && |t.students| == |s.students| + |calls|
      && (forall k :: k in s.students ==> k in t.students && t.students[k] == s.students[k])
      && (forall i :: 0 <= i < |calls| ==>
            calls[i].id in t.students
            && t.students[calls[i].id] == Student(calls[i].id, calls[i].name, calls[i].password, [], calls[i].now, None))
      && t.(students := s.students) == s
    decreases |calls|
  {
    if calls != [] {
      var c := calls[0];
      var next := CreateStudent(s, c.id, c.name, c.password, c.now).state;
      assert FreshIds(next, calls[1..]) by {
        forall i | 0 <= i < |calls[1..]|
          ensures calls[1..][i].id !in next.students
        {
          assert calls[1..][i] == calls[i + 1];
        }
      }
      CreatesYieldDistinctRecords(next, calls[1..]);
      var t := CreateStudents(s, calls);
      assert t == CreateStudents(next, calls[1..]);
      forall i | 0 <= i < |calls|
        ensures calls[i].id in t.students
        ensures t.students[calls[i].id] == Student(calls[i].id, calls[i].name, calls[i].password, [], calls[i].now, None)
      {
        if i > 0 {
          assert calls[1..][i - 1] == calls[i];
        }
      }
    }
  }
}
