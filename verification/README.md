# Students canister: a Dafny model of its record store

The canister keeps an educational record store: students, subjects,
assignments and submissions, each in its own string-keyed collection, each
with full create / read / update / delete entry points; teachers and classes
have a collection and a record type but no entry points. Every record carries
an `id`, a creation time and an optional update time. Relations (a subject's
students, a student's subjects, an assignment's subject, a submission's
student and assignment) are stored as embedded value copies, not references.

The model is functional. `Canister.State` holds the six collections as
`map<string, T>`. Every writing entry point takes the state and returns a
`Reply`: the `Result` the caller sees and the next state. Reads return a
`Result` only. The two services the canister calls are parameters:

- the fresh id that `uuidv4()` would produce is an argument `id`, with the
  precondition that it is not yet a key (the canister relies on uuid
  uniqueness and never checks it);
- the time `ic.time()` would return is an argument `now: nat64`.

Modules, leaves first:

- `Wrappers` (wrappers.dfy): `Option` and `Result`.
- `Records` (records.dfy): `nat64` and the six record types. `Subject` and
  `Student` are mutually recursive datatypes holding `seq`s of each other.
  Field names are camel-cased (`created_at` is `createdAt`, `iscompleted` is
  `isCompleted`, and so on).
- `Repository` (repository.dfy): the discipline every collection shares:
  `Find`, `Insert`, `Modify` (read, merge, write back), `Remove`, and the
  `List` method standing for the store's `values()`.
- `Canister` (canister.dfy): the state and the twenty entry points, each an
  instance of the repository discipline with the entity's create defaults and
  its own merge function (the `{...stored, ...fields}` spread).
- `Lifecycle` (lifecycle.dfy): properties that relate several calls.

`Canister.Valid` says every record of every collection is stored under its
own id. Every writing entry point preserves it.

The listing order of `values()` is the backing tree's and is not fixed by the
model. `List` returns the values together with the key order it used, and its
contract says that order names every key exactly once.

The payload of `updateStudent` (src/index.ts:20) is a record with all three
of name, password and subjects, and the spread at src/index.ts:92-96
overwrites all three, so the model's `StudentProps` carries all three.

## Model

| member | source | states |
|---|---|---|
| Repository.List | src/index.ts:63-66 | the listing holds one stored value per key, each key appearing exactly once in the order used; so it has as many entries as the store has keys and lists a value iff it is stored |
| Repository.ListingIsTheStore | src/index.ts:63-66 | a listing has exactly as many entries as the collection has keys, and a value is listed iff it is stored |
| Canister.GetStudents | src/index.ts:63-66 | getStudents always succeeds and enumerates exactly the stored students |
| Canister.GetStudent | src/index.ts:67-73 | Ok with the stored student iff the id is a key, otherwise Err "No student found" |
| Canister.CreateStudent | src/index.ts:74-87 | the new student has the given name and password, no subjects, createdAt = now, no update time; it is stored under the fresh id, the reply is the stored value, no other key and no other collection changes, and Valid is kept |
| Canister.UpdateStudent | src/index.ts:88-102 | on a present id the result keeps the stored id and createdAt, takes name, password and subjects from the payload, has updatedAt = Some(now), is written back under the same key and returned; on an absent id Err "Update failed" and the state is unchanged; Valid is kept, and in a Valid state the returned record's id is the requested id |
| Canister.DeleteStudent | src/index.ts:103-109 | on a present id returns the stored student and the collection loses exactly that key; otherwise Err "Delete failed" and no change; Valid is kept |
| Canister.GetSubjects | src/index.ts:110-113 | getSubjects always succeeds and enumerates exactly the stored subjects |
| Canister.GetSubject | src/index.ts:114-120 | Ok with the stored subject iff the id is a key, otherwise Err "No subject found" |
| Canister.CreateSubject | src/index.ts:121-133 | the new subject has the given name, no students, createdAt = now, no update time; stored under the fresh id and returned; nothing else changes; Valid is kept |
| Canister.UpdateSubject | src/index.ts:134-148 | on a present id only the name is replaced and updatedAt becomes Some(now); id, createdAt and students are carried over; written back and returned; on an absent id Err "Update failed" and no change; Valid is kept, and in a Valid state the returned record's id is the requested id |
| Canister.DeleteSubject | src/index.ts:149-155 | on a present id returns the stored subject and removes exactly that key; otherwise Err "Delete failed" and no change |
| Canister.GetAssignments | src/index.ts:156-159 | getAssignments always succeeds and enumerates exactly the stored assignments |
| Canister.GetAssignment | src/index.ts:160-166 | Ok with the stored assignment iff the id is a key, otherwise Err "No assignment found" |
| Canister.CreateAssignment | src/index.ts:167-182 | the given name, subject and task are stored verbatim, isCompleted and isSubmitted start false, createdAt = now, no update time; stored under the fresh id and returned; nothing else changes |
| Canister.UpdateAssignment | src/index.ts:183-199 | on a present id name, subject and task are replaced wholesale and updatedAt becomes Some(now); id, createdAt, isCompleted and isSubmitted are carried over; on an absent id Err "Update failed" and no change; Valid is kept, and in a Valid state the returned record's id is the requested id |
| Canister.DeleteAssignment | src/index.ts:200-206 | on a present id returns the stored assignment and removes exactly that key; otherwise Err "Delete failed" and no change |
| Canister.GetSubmissions | src/index.ts:207-210 | getSubmissions always succeeds and enumerates exactly the stored submissions |
| Canister.GetSubmission | src/index.ts:211-217 | Ok with the stored submission iff the id is a key, otherwise Err "No submission found" |
| Canister.CreateSubmission | src/index.ts:218-232 | student, assignment and task are stored verbatim and isSubmitted is true whatever the caller intends; createdAt = now, no update time; stored under the fresh id and returned; nothing else changes |
| Canister.UpdateSubmission | src/index.ts:233-249 | on a present id student, assignment and task are replaced wholesale and updatedAt becomes Some(now); id, createdAt and isSubmitted are carried over; on an absent id Err "Update failed" and no change; Valid is kept, and in a Valid state the returned record's id is the requested id |
| Canister.DeleteSubmission | src/index.ts:250-256 | on a present id returns the stored submission and removes exactly that key; otherwise Err "Delete failed" and no change |
| Lifecycle.StudentCreateThenGet | src/index.ts:67-87 | reading a freshly created student returns exactly what create returned: the given name and password, no subjects, no update time |
| Lifecycle.SubjectCreateThenGet | src/index.ts:114-133 | reading a freshly created subject returns exactly what create returned |
| Lifecycle.AssignmentCreateThenGet | src/index.ts:160-182 | reading a freshly created assignment returns exactly what create returned |
| Lifecycle.SubmissionCreateThenGet | src/index.ts:211-232 | reading a freshly created submission returns exactly what create returned |
| Lifecycle.StudentDeleteUndoesCreate | src/index.ts:74-109 | deleting a freshly created student returns it and restores the state before the create exactly |
| Lifecycle.SubjectDeleteUndoesCreate | src/index.ts:121-155 | deleting a freshly created subject returns it and restores the earlier state exactly |
| Lifecycle.AssignmentDeleteUndoesCreate | src/index.ts:167-206 | deleting a freshly created assignment returns it and restores the earlier state exactly |
| Lifecycle.SubmissionDeleteUndoesCreate | src/index.ts:218-256 | deleting a freshly created submission returns it and restores the earlier state exactly |
| Lifecycle.StudentUpdateLastWriterWins | src/index.ts:67-102 | the first update leaves no trace: two updates with any two payloads equal the second alone, so payloads are not accumulated; the record after both carries the second payload's name, password and subjects; a read after an update returns the updated student |
| Lifecycle.SubjectUpdateLastWriterWins | src/index.ts:114-148 | two updates with any two names equal the second alone, and the record after both has the second name; a read after an update returns the updated subject |
| Lifecycle.AssignmentUpdateLastWriterWins | src/index.ts:160-199 | two updates with any two (name, subject, task) triples equal the second alone, and the record after both carries the second triple; a read after an update returns the updated assignment |
| Lifecycle.SubmissionUpdateLastWriterWins | src/index.ts:211-249 | two updates with any two (student, assignment, task) triples equal the second alone, and the record after both carries the second triple; a read after an update returns the updated submission |
| Lifecycle.UpdateNeverCreates | src/index.ts:88-249 | no update adds or removes a key of its collection, whether or not the id is present |
| Lifecycle.DeleteIsFinal | src/index.ts:103-256 | after any delete, reading the id fails with the collection's not-found message and a second delete fails with "Delete failed" and changes nothing |
| Lifecycle.EmbeddedSubjectIsSnapshot | src/index.ts:134-148 | an assignment keeps the subject value it was created with even after that subject is renamed in its own collection |
| Lifecycle.CreatesYieldDistinctRecords | src/index.ts:74-87 | N creates with fresh ids add exactly N students, one under each id as created, keep every earlier student, and touch no other collection |

## Left out

- The `$query` / `$update` decorators and the canister's call dispatch: they are plumbing around the functions.
- Persistence of the stable B-tree maps and their size parameters (key and value byte limits, src/index.ts:56-61): each collection is an unbounded `map<string, T>`. The model has no size bound, so a create or update whose record exceeds the store's value limit succeeds here, while the store refuses the write. Embedded snapshots make such records reachable in ordinary use.
- The order in which `values()` lists records: it is the tree's key order, which the model leaves open (see `Repository.List`).
- `uuidv4()` and `ic.time()`: both are arguments. No claim is made that timestamps grow, since the code never checks it, and the create entry points require only that the id is not currently a key of its collection, so an id can be reused after it is deleted.
- Teacher and Class entry points: the code has only their types and collections; the model keeps both collections and shows every entry point leaves them untouched.
- Lifecycle.CreatesYieldDistinctRecords: stated for students only; the other three create entry points have the same shape.
- The spread in `updateStudent` would also copy any extra property of the payload object; the payload type admits only name, password and subjects, so the model has exactly those.
