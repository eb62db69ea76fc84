/**
 * A session of the checker: after the owners and conflict classes are set up,
 * the command loop of LR2/task2.cpp issues `start`, `read` and `write` requests
 * one at a time.  Parsing the commands and printing the answers are not part
 * of this model; a session is the list of requests and the answers they get.
 */
module Session {
  import opened Policy

  datatype Command =
    | StartCommand
    | ReadCommand(subj: SizeT, obj: SizeT)
    | WriteCommand(subj: SizeT, obj: SizeT)

  /** The answer to each command (`start` always succeeds) and the final state. */
  datatype Trace = Trace(answers: seq<bool>, final: State)

  /** A request whose indices name a subject and an object of `w`. */
  predicate InRangeCommand(w: State, c: Command)
    requires WellFormed(w)
  {
    match c
    case StartCommand => true
    case ReadCommand(s, o) => InRange(w, s, o)
    case WriteCommand(s, o) => InRange(w, s, o)
  }

  function Execute(w: State, c: Command): (r: Step)
    requires WellFormed(w)
    ensures WellFormed(r.after) && SameRegistry(w, r.after)
    ensures !c.StartCommand? ==> Grows(w, r.after)
    ensures c.StartCommand? ==> r.accepted && forall s, o :: 0 <= s < w.subjects && 0 <= o < w.objects ==> !r.after.history[s][o]
  {
    match c
    case StartCommand => Step(true, Start(w))
    case ReadCommand(s, o) => Read(w, s, o)
    case WriteCommand(s, o) => Write(w, s, o)
  }

  /** Runs the commands in order, each on the state the previous one left. */
  function Replay(w: State, cs: seq<Command>): (t: Trace)
    requires WellFormed(w)
    ensures |t.answers| == |cs|
    ensures WellFormed(t.final) && SameRegistry(w, t.final)
    decreases |cs|
  {
    if cs == [] then Trace([], w)
    else
      var step := Execute(w, cs[0]);
      var rest := Replay(step.after, cs[1..]);
      Trace([step.accepted] + rest.answers, rest.final)
  }

  /** Without a `start`, no request ever clears an access: the history only grows. */
  lemma {:induction false} ReplayWithoutStartGrows(w: State, cs: seq<Command>)
    requires WellFormed(w)
    requires forall k :: 0 <= k < |cs| ==> !cs[k].StartCommand?
    ensures Grows(w, Replay(w, cs).final)
    decreases |cs|
  {
    if cs != [] {
      var step := Execute(w, cs[0]);
      ReplayWithoutStartGrows(step.after, cs[1..]);
    }
  }

  /** With no conflict declared, every in-range request of a session is accepted, whatever the history. */
  lemma {:induction false} NoConflictsAcceptEverything(w: State, cs: seq<Command>)
    requires WellFormed(w)
    requires forall f :: 0 <= f < w.firms ==> w.conflicts[f] == {}
    ensures forall k :: 0 <= k < |cs| && InRangeCommand(w, cs[k]) ==> Replay(w, cs).answers[k]
    decreases |cs|
  {
    if cs != [] {
      var step := Execute(w, cs[0]);
      NoConflictsAcceptEverything(step.after, cs[1..]);
      match cs[0]
      case StartCommand =>
      case ReadCommand(s, o) =>
        if InRange(w, s, o) {
          NoConflictsAcceptAll(w, s, o);
        }
      case WriteCommand(s, o) =>
        if InRange(w, s, o) {
          NoConflictsAcceptAll(w, s, o);
        }
      forall k | 1 <= k < |cs| && InRangeCommand(w, cs[k])
        ensures Replay(w, cs).answers[k]
      {
        assert cs[1..][k - 1] == cs[k];
      }
    }
  }

  /**
   * After a `start`, a session depends only on the owners and conflict
   * classes: two checkers with the same registries answer every later
   * request alike and end in the same state.
   */
  lemma ReplayAfterStart(w1: State, w2: State, cs: seq<Command>)
    requires WellFormed(w1) && WellFormed(w2) && SameRegistry(w1, w2)
    ensures Replay(w1, [StartCommand] + cs) == Replay(w2, [StartCommand] + cs)
  {
  }

  /**
   * Three subjects, two objects, two competing firms owning one object each.
   * Subject 1 reads object 0; its write to object 1 is then refused, yet the
   * read that the write performed first has recorded the access to object 1.
   */
  lemma WriteLaunderingRefused()
    ensures var w := AddConflictClass(SetObjectOwner(SetObjectOwner(Initial(3, 2, 2), 0, 0), 1, 1), 0, 1);
      var t := Replay(w, [ReadCommand(1, 0), WriteCommand(1, 1)]);
      t.answers == [true, false] && t.final.history[1][1]
  {
  }

  /**
   * Two subjects, one object owned by firm 0, firms 0 and 1 in conflict.
   * Subject 1's first read is accepted and the same read repeated is refused,
   * because index 1 is in firm 0's conflict class.
   */
  lemma RepeatReadRefused()
    ensures var w := AddConflictClass(Initial(2, 1, 2), 0, 1);
      Replay(w, [ReadCommand(1, 0), ReadCommand(1, 0)]).answers == [true, false]
  {
  }
}
