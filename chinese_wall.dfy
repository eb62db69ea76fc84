/**
 * The ChineseWall class of LR2/task2.cpp: the access matrix, the owner of each
 * object and the conflict class of each firm, updated in place.  Every method
 * is proved to take the step the matching function of module Policy takes.
 */
module Wall {
  import opened Policy

  class ChineseWall {
    const subjects: SizeT
    const objects: SizeT
    const firms: SizeT
    /** accessMatrix[s, o]: subject s has accessed object o since the last `start`. */
    const accessMatrix: array2<bool>
    /** objectOwners[o]: the firm owning object o. */
    const objectOwners: array<Int32>
    /** conflictClasses[f]: the firms in conflict with firm f. */
    const conflictClasses: array<set<Int32>>
    /** The access matrix as a value. */
    ghost var history: seq<seq<bool>>

    ghost predicate Valid()
      reads this, accessMatrix, objectOwners, conflictClasses
    {
      && accessMatrix.Length0 == subjects
      && accessMatrix.Length1 == objects
      && objectOwners.Length == objects
      && conflictClasses.Length == firms
      && WellFormed(Model())
      && forall s, o :: 0 <= s < subjects && 0 <= o < objects ==> accessMatrix[s, o] == history[s][o]
    }

    /** The checker as a Policy.State value. */
    ghost function Model(): State
      reads this, objectOwners, conflictClasses
    {
      State(subjects, objects, firms, history, objectOwners[..], conflictClasses[..])
    }

    /**
     * A checker for n subjects, m objects and f firms with an empty history,
     * every object owned by firm 0 and no conflicts.  With f == 0 a `read` of an
     * object someone has already accessed would index an empty vector of
     * conflict classes with the default owner 0, so f > 0 is required.
     */
    constructor (n: SizeT, m: SizeT, f: SizeT)
      requires 0 < f < MAX_FIRMS
      ensures Valid()
      ensures fresh(accessMatrix) && fresh(objectOwners) && fresh(conflictClasses)
      ensures Model() == Initial(n, m, f)
    {
      subjects, objects, firms := n, m, f;
      accessMatrix := new bool[n, m]((_, _) => false);
      objectOwners := new Int32[m](_ => 0);
      conflictClasses := new set<Int32>[f](_ => {});
      history := seq(n, _ => seq(m, _ => false));
    }

    /** Clears every access history, row by row. */
    method Start()
      requires Valid()
      modifies this, accessMatrix
      ensures Valid()
      ensures Model() == Policy.Start(old(Model()))
    {
      var i := 0;
      while i < subjects
        modifies accessMatrix
        invariant 0 <= i <= subjects
        invariant forall s, o :: 0 <= s < i && 0 <= o < objects ==> !accessMatrix[s, o]
        invariant forall s, o :: i <= s < subjects && 0 <= o < objects ==> accessMatrix[s, o] == old(accessMatrix[s, o])
      {
        var j := 0;
        while j < objects
          modifies accessMatrix
          invariant 0 <= j <= objects
          invariant forall s, o :: 0 <= s < i && 0 <= o < objects ==> !accessMatrix[s, o]
          invariant forall o :: 0 <= o < j ==> !accessMatrix[i, o]
          invariant forall s, o :: i <= s < subjects && 0 <= o < objects && (s != i || j <= o) ==>
            accessMatrix[s, o] == old(accessMatrix[s, o])
        {
          accessMatrix[i, j] := false;
          j := j + 1;
        }
        i := i + 1;
      }
      history := Policy.Start(Model()).history;
    }

    /**
     * Grants `subject` read access to `object` unless a subject whose index lies
     * in the conflict class of the object's owner has already accessed it.
     */
    method Read(subj: SizeT, obj: SizeT) returns (accepted: bool)
      requires Valid()
      modifies this, accessMatrix
      ensures Valid()
      ensures Policy.Read(old(Model()), subj, obj) == Step(accepted, Model())
    {
      if subj >= subjects || obj >= objects {
        return false;
      }
      var objectOwner := objectOwners[obj];
      assert objectOwner == Owner(Model(), obj);
      var i := 0;
      while i < subjects
        invariant 0 <= i <= subjects
        invariant forall k :: 0 <= k < i ==> !(history[k][obj] && SizeToInt(k) in conflictClasses[objectOwner])
      {
        if accessMatrix[i, obj] && SizeToInt(i) in conflictClasses[objectOwner] {
          assert ReadRefused(Model(), obj);
          return false;
        }
        i := i + 1;
      }
      accessMatrix[subj, obj] := true;
      history := Mark(Model(), subj, obj).history;
      return true;
    }

    /**
     * Runs `Read` first; if it is granted, refuses when the subject has accessed
     * an object of a firm in the conflict class of the object's owner.
     */
    method Write(subj: SizeT, obj: SizeT) returns (accepted: bool)
      requires Valid()
      modifies this, accessMatrix
      ensures Valid()
      ensures Policy.Write(old(Model()), subj, obj) == Step(accepted, Model())
    {
      if subj >= subjects || obj >= objects {
        return false;
      }
      var readAccepted := Read(subj, obj);
      if !readAccepted {
        return false;
      }
      var objectOwner := objectOwners[obj];
      assert objectOwner == Owner(Model(), obj);
      var i := 0;
      while i < objects
        invariant 0 <= i <= objects
        invariant forall k :: 0 <= k < i ==>
          !(history[subj][k] && objectOwners[k] != objectOwner && objectOwners[k] in conflictClasses[objectOwner])
      {
        if accessMatrix[subj, i] && objectOwners[i] != objectOwner && objectOwners[i] in conflictClasses[objectOwner] {
          assert WriteRefused(Model(), subj, obj);
          return false;
        }
        i := i + 1;
      }
      accessMatrix[subj, obj] := true;
      history := Mark(Model(), subj, obj).history;
      return true;
    }

    /** Makes `firm` the owner of `object`; an index out of range changes nothing. */
    method SetObjectOwner(obj: SizeT, firm: Int32)
      requires Valid()
      modifies objectOwners
      ensures Valid()
      ensures Model() == Policy.SetObjectOwner(old(Model()), obj, firm)
    {
      if obj >= objects || IntToSize(firm) >= firms {
        return;
      }
      objectOwners[obj] := firm;
    }

    /** Puts each firm in the other's conflict class; an index out of range changes nothing. */
    method AddConflictClass(firm1: Int32, firm2: Int32)
      requires Valid()
      modifies conflictClasses
      ensures Valid()
      ensures Model() == Policy.AddConflictClass(old(Model()), firm1, firm2)
    {
      if IntToSize(firm1) >= firms || IntToSize(firm2) >= firms {
        return;
      }
      conflictClasses[firm1] := conflictClasses[firm1] + {firm2};
      conflictClasses[firm2] := conflictClasses[firm2] + {firm1};
      assert Model() == Policy.AddConflictClass(old(Model()), firm1, firm2);
    }
  }
}
