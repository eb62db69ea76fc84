# Chinese Wall access checker

A Dafny model of the `ChineseWall` class in `LR2/task2.cpp`. The class is an
access checker in the style of the Brewer–Nash "Chinese Wall" policy. Its state is:

- an access matrix over subjects × objects, recording who has accessed what since the last `start`;
- the owning firm of each object;
- for each firm, the set of firms it is in conflict with.

`read` and `write` decide a request by scanning that state. When they accept,
they record the access in the matrix.

The model has three modules:

- `Policy` (`policy.dfy`) holds the checker as a value (`State`) with one
  function per operation (`Initial`, `Start`, `Read`, `Write`,
  `SetObjectOwner`, `AddConflictClass`). The invariant `WellFormed` says the
  shapes match the dimensions, every owner is a firm, there is at least one
  firm, and the conflict classes form a symmetric relation over firms. The
  lemmas state what the operations promise, alone and in combination.
- `Wall` (`chinese_wall.dfy`) holds the class `ChineseWall` as the source has
  it: a `bool` `array2` for the access matrix and arrays for the owners and the
  conflict classes, all updated in place. `read` and `write` scan with `while`
  loops and return early, and `start` clears the matrix row by row. Every method
  is proved to take the step the matching `Policy` function takes. A ghost
  field holds the matrix as a value.
- `Session` (`session.dfy`) models the command loop's `start`/`read`/`write`
  requests as a list of commands replayed in order. It proves what holds across
  any such sequence. It also has two concrete scenarios.

The source's C++ integer types are modelled explicitly:

- Indices and dimensions are `size_t` (`SizeT`). Firms and owners are `int` (`Int32`).
- `read`'s scan tests a subject index `i` (a `size_t`) for membership in a
  firm's `std::set<int>`. So `i` is converted to `int` (`SizeToInt`, the low 32
  bits in two's complement). The model keeps this comparison of subject indices
  with firm indices literally.
- `setObjectOwner` and `addConflictClass` compare an `int` firm with the `size_t`
  firm count. So a negative firm is converted to a huge value (`IntToSize`), and
  the check rejects it.

Three consequences of the code that a reader might not expect:

- A repeated `read` of the same pair is not always accepted. The scan
  includes the requester's own cell, so the repeat is accepted exactly when
  the requester's index is not in the owner's conflict class
  (`Policy.RepeatRead`, `Session.RepeatReadRefused`).
- A refused request can still change the history. `write` calls `read`
  first, and `read` may already have set the cell, so a `write` refused by its
  own scan leaves that cell set (`Policy.RefusedWriteKeepsMark`,
  `Session.WriteLaunderingRefused`).
- An out-of-range index and a policy refusal give the same answer: `read` and
  `write` return `false` for both. An out-of-range index or a `read` refusal
  changes nothing, but a `write` refused by its own scan keeps the mark its
  `read` set.

## Model

| member | source | states |
|---|---|---|
| `Policy.SizeToInt` | LR2/task2.cpp:43 | the subject index converted to `int` by `count(i)` is congruent to it modulo 2^32 and equals it below 2^31 |
| `Policy.IntToSize` | LR2/task2.cpp:79-88 | an `int` firm compared with the `size_t` firm count keeps its value modulo 2^64, and a negative one becomes at least 2^63, above any firm count |
| `Policy.InRange` | LR2/task2.cpp:33-36 | the range check of `read` and `write` (repeated at lines 55-58): indices that pass it address a cell of the matrix and an entry of the owner vector |
| `Policy.ReadRefused` | LR2/task2.cpp:42-46 | the column scan of `read` finds a subject that has accessed the object and whose index is in the owner's conflict class; it never refuses an object nobody has accessed, nor an owner with an empty conflict class |
| `Policy.WriteRefused` | LR2/task2.cpp:65-69 | the row scan of `write` finds an accessed object of another firm in the owner's conflict class; that object is never the requested one, and an empty row or an empty conflict class never refuses |
| `Policy.Owner` | LR2/task2.cpp:38 | the owner looked up for an in-range object is a valid firm index, so `conflictClasses[objectOwner]` is in bounds |
| `Policy.Initial` | LR2/task2.cpp:18-22 | a new checker has an all-false matrix, every object owned by firm 0 and every conflict class empty, and satisfies the invariant when there is at least one firm |
| `Policy.Start` | LR2/task2.cpp:25-29 | every matrix cell becomes false; dimensions, owners and conflict classes are unchanged |
| `Policy.Mark` | LR2/task2.cpp:49 | exactly cell [s][o] becomes true; every other cell and the registries are unchanged |
| `Policy.Read` | LR2/task2.cpp:32-51 | accepted iff both indices are in range and no subject i with `SizeToInt(i)` in the owner's conflict class has accessed the object; on acceptance exactly cell [s][o] becomes true; on refusal (out-of-range included) nothing changes |
| `Policy.Write` | LR2/task2.cpp:54-75 | out-of-range or a refused `read` gives false with nothing changed; otherwise accepted iff the subject's row, after `read`'s mark, holds no object of another firm in the owner's conflict class; the history left is always the one `read` left |
| `Policy.SetObjectOwner` | LR2/task2.cpp:78-84 | with an in-range object and 0 <= firm < firms the object's owner becomes firm and all else is unchanged; any other input (negative firm included) changes nothing; the invariant, so owners in [0, firms), is kept |
| `Policy.AddConflictClass` | LR2/task2.cpp:87-94 | with both firms in [0, firms) each joins the other's conflict class and no other class changes; any other input changes nothing; the conflict relation stays symmetric |
| `Policy.AddPairKeepsGraph` | LR2/task2.cpp:92-93 | the two inserts, done in sequence, add exactly firm2 to class firm1 and firm1 to class firm2 (one self-entry when they are equal) and keep the relation symmetric and within the firms |
| `Policy.MarkSetCell` | LR2/task2.cpp:73 | the store after an accepted write scan never changes the matrix, because `read` already set that cell |
| `Policy.WriteScanIgnoresReadMark` | LR2/task2.cpp:60-69 | the write scan decides the same on the matrix after `read` as on the matrix before the request: the cell `read` sets belongs to the requested object's own owner |
| `Policy.WriteDecision` | LR2/task2.cpp:54-75 | `write` is accepted iff the indices are in range, the read scan finds no conflict and the write scan over the subject's history as it was before the request finds no competing object |
| `Policy.RepeatRead` | LR2/task2.cpp:42-49 | right after an accepted `read(s, o)` a second `read(s, o)` is accepted iff `SizeToInt(s)` is not in the owner's conflict class, and when accepted it changes nothing |
| `Policy.RefusedWriteKeepsMark` | LR2/task2.cpp:49-69 | when `read` accepts but `write` refuses, the write scan found a competing object and cell [s][o] is nevertheless true afterward |
| `Policy.NoConflictsAcceptAll` | LR2/task2.cpp:42-70 | with every conflict class empty, every in-range `read` and `write` is accepted |
| `Policy.AddConflictClassIdempotent` | LR2/task2.cpp:87-94 | adding the same pair a second time changes nothing |
| `Policy.AddConflictClassSymmetric` | LR2/task2.cpp:87-94 | adding (a, b) and adding (b, a) give the same state |
| `Policy.SetObjectOwnerLastWins` | LR2/task2.cpp:78-84 | setting an object's owner twice, the second time to a valid firm, is the same as setting it once to that firm |
| `Policy.StartIsFresh` | LR2/task2.cpp:18-29 | after `start` the checker equals a newly constructed one with the same owners and conflict classes |
| `Wall.ChineseWall.constructor` | LR2/task2.cpp:18-22 | allocates the matrix, owners and conflict classes and establishes the invariant with the state `Policy.Initial` gives |
| `Wall.ChineseWall.Start` | LR2/task2.cpp:25-29 | the two loops clear every cell of the matrix in place; the result is `Policy.Start` of the old state |
| `Wall.ChineseWall.Read` | LR2/task2.cpp:32-51 | the column scan with early return and the store give exactly the answer and new state of `Policy.Read`, and keep the invariant |
| `Wall.ChineseWall.Write` | LR2/task2.cpp:54-75 | the call to `Read`, the row scan with early return and the store give exactly the answer and new state of `Policy.Write`, and keep the invariant |
| `Wall.ChineseWall.SetObjectOwner` | LR2/task2.cpp:78-84 | updates the owner array in place as `Policy.SetObjectOwner` does, touching nothing else |
| `Wall.ChineseWall.AddConflictClass` | LR2/task2.cpp:87-94 | updates the two conflict sets in place as `Policy.AddConflictClass` does, touching nothing else |
| `Session.Execute` | LR2/task2.cpp:200-223 | one command of the loop: `read`/`write` never clear a cell and never change dimensions, owners or conflict classes; `start` clears every cell |
| `Session.Replay` | LR2/task2.cpp:195-223 | any sequence of commands gives one answer per command and keeps the invariant, the dimensions, the owners and the conflict classes |
| `Session.ReplayWithoutStartGrows` | LR2/task2.cpp:195-223 | across any sequence of `read`/`write` requests with no `start`, every cell set at the beginning is still set at the end |
| `Session.NoConflictsAcceptEverything` | LR2/task2.cpp:195-223 | with no conflict declared, every in-range request of any sequence is accepted, whatever the history |
| `Session.ReplayAfterStart` | LR2/task2.cpp:200-203 | after a `start`, two checkers with the same owners and conflict classes give the same answers and end in the same state for any later requests |
| `Session.WriteLaunderingRefused` | LR2/task2.cpp:54-75 | in the scenario of 3 subjects, 2 objects, object 0 owned by firm 0, object 1 by firm 1 and firms 0 and 1 in conflict: after subject 1 reads object 0, its write to object 1 is refused by the write scan, yet cell [1][1] is set |
| `Session.RepeatReadRefused` | LR2/task2.cpp:42-49 | in the scenario of 2 subjects, 1 object owned by firm 0 and firms 0 and 1 in conflict: subject 1's first read of object 0 is accepted and the same read repeated is refused, because index 1 is in firm 0's conflict class |

## Left out

- `main` (LR2/task2.cpp:163-249): reading the dimensions, owners and conflict pairs from the console, parsing commands and printing answers. Only the sequence of `start`/`read`/`write` requests is modelled, in `Session`.
- `reportSubject`, `reportObject`, `briefCase` (LR2/task2.cpp:97-148): they only print and change nothing.
- The `std::cerr` messages in the error branches: the model keeps only "return false" or "return" with no change.
- `getSubjects`, `getObjects`, `getFirms` (LR2/task2.cpp:150-160): the dimensions are the `const` fields `subjects`, `objects` and `firms` of `Wall.ChineseWall`, so there is no getter to prove.
- The packing of `std::vector<bool>` and the ordering of `std::set<int>`: the matrix is a `bool` `array2` and a conflict class is a mathematical set.
- A checker with no firms: every owner stays 0 (no `setObjectOwner` can succeed), and as soon as a `read` meets an object someone has already accessed, line 43 indexes `conflictClasses[0]` in an empty vector, which is undefined behaviour in C++. The first request on each object is well defined because the `&&` at line 43 short-circuits, but the model does not follow a checker past that point: the constructor requires at least one firm.
- A checker with 2^63 firms or more: no `std::vector<std::set<int>>` can hold that many. The constructor requires fewer, so that every negative firm index wraps to a value above the firm count.
- Allocation failure when the vectors are created: not modelled.
- The order of the scans matters only for which conflicting index is found first. The answer does not depend on it, so the `Policy` functions state the scans as quantifiers.
