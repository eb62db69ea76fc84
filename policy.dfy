/**
 * The Chinese Wall access checker of LR2/task2.cpp as a value: the whole state
 * of one checker (dimensions, access history, object owners, conflict classes)
 * and one function per operation.  The class in chinese_wall.dfy is proved to
 * take exactly these steps; the lemmas below state what the steps promise.
 */
module Policy {

  /** C++ `size_t` (64 bits) and `int` (32 bits). */
  const SIZE_MODULUS: int := 0x1_0000_0000_0000_0000
  const INT_MODULUS: int := 0x1_0000_0000
  type SizeT = x: int | 0 <= x < 0x1_0000_0000_0000_0000
  type Int32 = x: int | -0x8000_0000 <= x < 0x8000_0000

  /** A std::vector of std::set<int> cannot hold 2^63 elements, so no checker has that many firms. */
  const MAX_FIRMS: int := 0x8000_0000_0000_0000

  /** The implicit conversion of a `size_t` to `int`: the low 32 bits, read in two's complement. */
  function SizeToInt(i: SizeT): (r: Int32)
    ensures (r - i) % INT_MODULUS == 0
    ensures i < 0x8000_0000 ==> r == i
  {
    var low := i % INT_MODULUS;
    if low < 0x8000_0000 then low else low - INT_MODULUS
  }

  /** The conversion of an `int` to `size_t` when the two are compared: a negative value wraps to a huge one. */
  function IntToSize(x: Int32): (r: SizeT)
    ensures (r - x) % SIZE_MODULUS == 0
    ensures x < 0 ==> r >= MAX_FIRMS
  {
    if x < 0 then x + SIZE_MODULUS else x
  }

  /**
   * One checker.  history[s][o] is the access matrix cell of subject s and
   * object o, owners[o] the firm owning object o, conflicts[f] the set of firms
   * in conflict with firm f.
   */
  datatype State = State(
    subjects: SizeT,
    objects: SizeT,
    firms: SizeT,
    history: seq<seq<bool>>,
    owners: seq<Int32>,
    conflicts: seq<set<Int32>>)

  /** The outcome of a request: the answer and the state after it. */
  datatype Step = Step(accepted: bool, after: State)

  /**
   * The invariant of every checker: the shapes match the dimensions, every
   * owner is a firm, and the conflict classes form a symmetric relation over
   * firms.  `firms > 0` is needed because an object's default owner is firm 0.
   */
  ghost predicate WellFormed(w: State) {
    && 0 < w.firms < MAX_FIRMS
    && Matrix(w.history, w.subjects, w.objects)
    && |w.owners| == w.objects
    && (forall o :: 0 <= o < |w.owners| ==> 0 <= w.owners[o] < w.firms)
    && ConflictGraph(w.conflicts, w.firms)
  }

  /** `m` has `rows` rows of `columns` cells each. */
  ghost predicate Matrix(m: seq<seq<bool>>, rows: nat, columns: nat) {
    |m| == rows && forall s :: 0 <= s < |m| ==> |m[s]| == columns
  }

  /** `c` has one conflict class per firm, each a set of firms, and the relation is symmetric. */
  ghost predicate ConflictGraph(c: seq<set<Int32>>, firms: nat) {
    && |c| == firms
    && forall f, g {:trigger g in c[f]} :: 0 <= f < |c| && g in c[f] ==> 0 <= g < firms && f in c[g]
  }

  /** The two states differ at most in their access history. */
  predicate SameRegistry(w: State, v: State) {
    && v.subjects == w.subjects
    && v.objects == w.objects
    && v.firms == w.firms
    && v.owners == w.owners
    && v.conflicts == w.conflicts
  }

  /** Every cell set in `w` is still set in `v`. */
  ghost predicate Grows(w: State, v: State)
    requires WellFormed(w) && WellFormed(v) && SameRegistry(w, v)
  {
    forall s, o :: 0 <= s < w.subjects && 0 <= o < w.objects && w.history[s][o] ==> v.history[s][o]
  }

  /** The range check of `read` and `write`: both indices below their counts. */
  predicate InRange(w: State, subj: SizeT, obj: SizeT)
    requires WellFormed(w)
    ensures InRange(w, subj, obj) ==> subj < |w.history| && obj < |w.history[subj]| && obj < |w.owners|
  {
    subj < w.subjects && obj < w.objects
  }

  function Owner(w: State, obj: SizeT): (f: Int32)
    requires WellFormed(w) && obj < w.objects
    ensures 0 <= f < w.firms
  {
    w.owners[obj]
  }

  /**
   * The scan of `read`: some subject whose index, converted to int, lies in
   * the conflict class of the object's owner has already accessed the object.
   */
  predicate ReadRefused(w: State, obj: SizeT)
    requires WellFormed(w) && obj < w.objects
    ensures (forall i :: 0 <= i < w.subjects ==> !w.history[i][obj]) ==> !ReadRefused(w, obj)
    ensures w.conflicts[Owner(w, obj)] == {} ==> !ReadRefused(w, obj)
  {
    exists i :: 0 <= i < w.subjects && w.history[i][obj] && SizeToInt(i) in w.conflicts[Owner(w, obj)]
  }

  /**
   * The scan of `write`: the subject has accessed an object of another firm
   * that lies in the conflict class of the object's owner.
   */
  predicate WriteRefused(w: State, subj: SizeT, obj: SizeT)
    requires WellFormed(w) && InRange(w, subj, obj)
    ensures WriteRefused(w, subj, obj) ==> exists j :: 0 <= j < w.objects && j != obj && w.history[subj][j]
    ensures (forall j :: 0 <= j < w.objects ==> !w.history[subj][j]) ==> !WriteRefused(w, subj, obj)
    ensures w.conflicts[Owner(w, obj)] == {} ==> !WriteRefused(w, subj, obj)
  {
    exists j :: 0 <= j < w.objects && w.history[subj][j] && w.owners[j] != Owner(w, obj) && w.owners[j] in w.conflicts[Owner(w, obj)]
  }

  /** Records that `subject` has accessed `object`. */
  function Mark(w: State, subj: SizeT, obj: SizeT): (v: State)
    requires WellFormed(w) && InRange(w, subj, obj)
    ensures WellFormed(v) && SameRegistry(w, v)
    ensures forall s, o :: 0 <= s < w.subjects && 0 <= o < w.objects ==>
      (v.history[s][o] <==> w.history[s][o] || (s == subj && o == obj))
  {
    w.(history := w.history[subj := w.history[subj][obj := true]])
  }

  /** A fresh checker: no access recorded, every object owned by firm 0, no conflicts. */
  function Initial(subjects: SizeT, objects: SizeT, firms: SizeT): (w: State)
    requires 0 < firms < MAX_FIRMS
    ensures WellFormed(w)
    ensures w.subjects == subjects && w.objects == objects && w.firms == firms
    ensures forall s, o :: 0 <= s < subjects && 0 <= o < objects ==> !w.history[s][o]
    ensures forall o :: 0 <= o < objects ==> w.owners[o] == 0
    ensures forall f :: 0 <= f < firms ==> w.conflicts[f] == {}
  {
    State(subjects, objects, firms,
          seq(subjects, _ => seq(objects, _ => false)),
          seq(objects, _ => 0),
          seq(firms, _ => {}))
  }

  /** `start`: forget every access, keep owners and conflict classes. */
  function Start(w: State): (v: State)
    requires WellFormed(w)
    ensures WellFormed(v) && SameRegistry(w, v)
    ensures forall s, o :: 0 <= s < w.subjects && 0 <= o < w.objects ==> !v.history[s][o]
  {
    w.(history := seq(w.subjects, _ => seq(w.objects, _ => false)))
  }

  /**
   * `read`: out-of-range indices are refused; otherwise the request is refused
   * when the scan finds a conflicting subject, and accepted (and recorded) if not.
   */
  function Read(w: State, subj: SizeT, obj: SizeT): (r: Step)
    requires WellFormed(w)
    ensures WellFormed(r.after) && SameRegistry(w, r.after)
    ensures !r.accepted ==> r.after == w
    ensures r.accepted <==> (
      && InRange(w, subj, obj)
      && forall i :: 0 <= i < w.subjects && SizeToInt(i) in w.conflicts[Owner(w, obj)] ==> !w.history[i][obj])
    ensures forall s, o :: 0 <= s < w.subjects && 0 <= o < w.objects ==>
      (r.after.history[s][o] <==> w.history[s][o] || (r.accepted && s == subj && o == obj))
  {
    if subj >= w.subjects || obj >= w.objects then Step(false, w)
    else if ReadRefused(w, obj) then Step(false, w)
    else Step(true, Mark(w, subj, obj))
  }

  /**
   * `write`: out-of-range indices are refused; otherwise `read` runs first and
   * its refusal is final; then the subject's own history is scanned for an
   * object of a competing firm.  The history `read` left is kept either way.
   */
  function Write(w: State, subj: SizeT, obj: SizeT): (r: Step)
    requires WellFormed(w)
    ensures WellFormed(r.after) && SameRegistry(w, r.after)
    ensures !InRange(w, subj, obj) ==> r == Step(false, w)
    ensures !Read(w, subj, obj).accepted ==> r == Step(false, w)
    ensures r.after == Read(w, subj, obj).after
    ensures r.accepted <==> Read(w, subj, obj).accepted && !WriteRefused(Read(w, subj, obj).after, subj, obj)
  {
    if subj >= w.subjects || obj >= w.objects then Step(false, w)
    else
      var read := Read(w, subj, obj);
      if !read.accepted then Step(false, read.after)
      else if WriteRefused(read.after, subj, obj) then Step(false, read.after)
      else
        MarkSetCell(read.after, subj, obj);
        Step(true, Mark(read.after, subj, obj))
  }

  /**
   * `setObjectOwner`: an object index or firm index out of range (a negative
   * firm included) changes nothing; otherwise the object's owner becomes `firm`.
   */
  function SetObjectOwner(w: State, obj: SizeT, firm: Int32): (v: State)
    requires WellFormed(w)
    ensures WellFormed(v)
    ensures v.subjects == w.subjects && v.objects == w.objects && v.firms == w.firms
    ensures v.history == w.history && v.conflicts == w.conflicts
    ensures !(obj < w.objects && 0 <= firm < w.firms) ==> v == w
    ensures obj < w.objects && 0 <= firm < w.firms ==>
      v.owners[obj] == firm && forall o :: 0 <= o < w.objects && o != obj ==> v.owners[o] == w.owners[o]
  {
    if obj >= w.objects || IntToSize(firm) >= w.firms then w
    else w.(owners := w.owners[obj := firm])
  }

  /**
   * `addConflictClass`: a firm index out of range (a negative one included)
   * changes nothing; otherwise each firm joins the other's conflict class.
   */
  function AddConflictClass(w: State, firm1: Int32, firm2: Int32): (v: State)
    requires WellFormed(w)
    ensures WellFormed(v)
    ensures v.subjects == w.subjects && v.objects == w.objects && v.firms == w.firms
    ensures v.history == w.history && v.owners == w.owners
    ensures !(0 <= firm1 < w.firms && 0 <= firm2 < w.firms) ==> v == w
    ensures 0 <= firm1 < w.firms && 0 <= firm2 < w.firms ==>
      forall f :: 0 <= f < w.firms ==>
        v.conflicts[f] == w.conflicts[f] + (if f == firm1 then {firm2} else {}) + (if f == firm2 then {firm1} else {})
  {
    if IntToSize(firm1) >= w.firms || IntToSize(firm2) >= w.firms then w
    else
      var c := w.conflicts[firm1 := w.conflicts[firm1] + {firm2}];
      var v := w.(conflicts := c[firm2 := c[firm2] + {firm1}]);
      AddPairKeepsGraph(w.conflicts, v.conflicts, w.firms, firm1, firm2);
      v
  }

  /** Adding a pair of firms to each other's conflict class keeps the conflict relation symmetric. */
  lemma AddPairKeepsGraph(c: seq<set<Int32>>, d: seq<set<Int32>>, firms: nat, firm1: Int32, firm2: Int32)
    requires ConflictGraph(c, firms) && 0 <= firm1 < firms && 0 <= firm2 < firms
    requires d == var c1 := c[firm1 := c[firm1] + {firm2}]; c1[firm2 := c1[firm2] + {firm1}]
    ensures ConflictGraph(d, firms)
    ensures forall f :: 0 <= f < firms ==>
      d[f] == c[f] + (if f == firm1 then {firm2} else {}) + (if f == firm2 then {firm1} else {})
  {
    assert forall f :: 0 <= f < firms ==>
      d[f] == c[f] + (if f == firm1 then {firm2} else {}) + (if f == firm2 then {firm1} else {});
    forall f, g | 0 <= f < |d| && g in d[f]
      ensures 0 <= g < firms && f in d[g]
    {
      if g in c[f] {
        assert f in c[g];
      } else if f == firm1 && g == firm2 {
        assert f in d[g];
      } else {
        assert f == firm2 && g == firm1;
        assert f in d[g];
      }
    }
  }

  /** Marking a cell that is already set changes nothing. */
  lemma MarkSetCell(w: State, subj: SizeT, obj: SizeT)
    requires WellFormed(w) && InRange(w, subj, obj) && w.history[subj][obj]
    ensures Mark(w, subj, obj) == w
  {
    assert w.history[subj][obj := true] == w.history[subj];
  }

  /**
   * The write scan never sees the cell `read` has just set (that object has
   * the requested object's own owner), so it decides on the history as it
   * was before the request.
   */
  lemma WriteScanIgnoresReadMark(w: State, subj: SizeT, obj: SizeT)
    requires WellFormed(w) && InRange(w, subj, obj)
    ensures WriteRefused(Read(w, subj, obj).after, subj, obj) <==> WriteRefused(w, subj, obj)
  {
  }

  /** The write decision stated on the history before the request. */
  lemma WriteDecision(w: State, subj: SizeT, obj: SizeT)
    requires WellFormed(w)
    ensures Write(w, subj, obj).accepted <==>
      InRange(w, subj, obj) && !ReadRefused(w, obj) && !WriteRefused(w, subj, obj)
  {
  }

  /**
   * A repeated `read` of the same pair is not always accepted: the scan
   * includes the requester's own cell, so the second read is accepted exactly
   * when the requester's index is not in the owner's conflict class.
   */
  lemma RepeatRead(w: State, subj: SizeT, obj: SizeT)
    requires WellFormed(w) && Read(w, subj, obj).accepted
    ensures var v := Read(w, subj, obj).after;
      Read(v, subj, obj).accepted <==> SizeToInt(subj) !in w.conflicts[Owner(w, obj)]
    ensures var v := Read(w, subj, obj).after;
      Read(v, subj, obj).after == v
  {
    var v := Read(w, subj, obj).after;
    if SizeToInt(subj) in w.conflicts[Owner(w, obj)] {
      assert v.history[subj][obj];
    }
    if Read(v, subj, obj).accepted {
      MarkSetCell(v, subj, obj);
    }
  }

  /**
   * A `write` refused by its own scan still leaves the access `read`
   * recorded: the refusal does not undo the mark.
   */
  lemma RefusedWriteKeepsMark(w: State, subj: SizeT, obj: SizeT)
    requires WellFormed(w) && Read(w, subj, obj).accepted && !Write(w, subj, obj).accepted
    ensures InRange(w, subj, obj)
    ensures Write(w, subj, obj).after.history[subj][obj]
    ensures WriteRefused(w, subj, obj)
  {
  }

  /** With no conflict declared, every in-range `read` and `write` is accepted. */
  lemma NoConflictsAcceptAll(w: State, subj: SizeT, obj: SizeT)
    requires WellFormed(w) && InRange(w, subj, obj)
    requires forall f :: 0 <= f < w.firms ==> w.conflicts[f] == {}
    ensures Read(w, subj, obj).accepted
    ensures Write(w, subj, obj).accepted
  {
  }

  /** Adding the same conflict pair twice is the same as adding it once. */
  lemma AddConflictClassIdempotent(w: State, firm1: Int32, firm2: Int32)
    requires WellFormed(w)
    ensures AddConflictClass(AddConflictClass(w, firm1, firm2), firm1, firm2) == AddConflictClass(w, firm1, firm2)
  {
  }

  /** The order of the two firms does not matter. */
  lemma AddConflictClassSymmetric(w: State, firm1: Int32, firm2: Int32)
    requires WellFormed(w)
    ensures AddConflictClass(w, firm1, firm2) == AddConflictClass(w, firm2, firm1)
  {
  }

  /** Setting an object's owner twice: the last valid firm wins. */
  lemma SetObjectOwnerLastWins(w: State, obj: SizeT, firm1: Int32, firm2: Int32)
    requires WellFormed(w) && 0 <= firm2 < w.firms
    ensures SetObjectOwner(SetObjectOwner(w, obj, firm1), obj, firm2) == SetObjectOwner(w, obj, firm2)
  {
  }

  /** `start` yields a fresh checker that keeps the owners and conflict classes. */
  lemma StartIsFresh(w: State)
    requires WellFormed(w)
    ensures Start(w) == Initial(w.subjects, w.objects, w.firms).(owners := w.owners, conflicts := w.conflicts)
  {
  }
}
