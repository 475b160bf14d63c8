// File locks held by subtasks (internal/task/filelock.go).
module FileLocks {
  import opened Plans

  type Locks = map<File, Id>

  predicate Lockable(locks: Locks, id: Id, files: seq<File>) {
    forall f :: f in files && f in locks ==> locks[f] == id
  }

  function Acquired(locks: Locks, id: Id, files: seq<File>): Locks {
    map f | f in locks.Keys + (set g | g in files) :: if f in files then id else locks[f]
  }

  function Released(locks: Locks, id: Id): Locks {
    map f | f in locks && locks[f] != id :: locks[f]
  }

  // All the files are locked for the subtask, and all other locks are as they were.
  ghost predicate HoldsFiles(before: Locks, locks: Locks, id: Id, files: seq<File>) {
    && (forall f :: f in files ==> f in locks && locks[f] == id)
    && (forall f :: f !in files ==> (f in locks <==> f in before) && (f in before ==> locks[f] == before[f]))
  }

  lemma GrantedHolds(locks: Locks, id: Id, files: seq<File>)
    ensures HoldsFiles(locks, Acquired(locks, id, files), id, files)
  {
  }

  // Releasing undoes acquiring, for a subtask that held nothing before.
  lemma ReleaseUndoesAcquire(locks: Locks, id: Id, files: seq<File>)
    requires Lockable(locks, id, files)
    requires forall f :: f in locks ==> locks[f] != id
    ensures Released(Acquired(locks, id, files), id) == locks
  {
    assert Released(Acquired(locks, id, files), id).Keys == locks.Keys;
  }

  lemma AcquireNext(locks: Locks, id: Id, files: seq<File>, i: nat)
    requires i < |files|
    ensures Acquired(locks, id, files[..i])[files[i] := id] == Acquired(locks, id, files[..i + 1])
  {
    assert files[..i + 1] == files[..i] + [files[i]];
    var r := Acquired(locks, id, files[..i + 1]);
    assert r.Keys == Acquired(locks, id, files[..i]).Keys + {files[i]};
  }

  class FileLockService {
    var locks: Locks

    constructor ()
      ensures locks == map[]
    {
      locks := map[];
    }

    // All the files or none of them.
    method TryLock(id: Id, files: seq<File>) returns (ok: bool)
      modifies this
      ensures ok <==> Lockable(old(locks), id, files)
      ensures locks == if ok then Acquired(old(locks), id, files) else old(locks)
      ensures ok ==> HoldsFiles(old(locks), locks, id, files)
    {
      if |files| == 0 {
        assert locks == Acquired(locks, id, files);
        return true;
      }
      for i := 0 to |files|
        invariant locks == old(locks)
        invariant Lockable(locks, id, files[..i])
      {
        if files[i] in locks && locks[files[i]] != id {
          return false;
        }
        assert files[..i + 1] == files[..i] + [files[i]];
      }
      assert files[..|files|] == files;
      for i := 0 to |files|
        invariant locks == Acquired(old(locks), id, files[..i])
      {
        AcquireNext(old(locks), id, files, i);
        locks := locks[files[i] := id];
      }
      return true;
    }

    method Release(id: Id)
      modifies this
      ensures locks == Released(old(locks), id)
      ensures forall f :: f in locks <==> f in old(locks) && old(locks)[f] != id
      ensures forall f :: f in locks ==> locks[f] == old(locks)[f]
    {
      var todo := locks.Keys;
      while todo != {}
        invariant todo <= locks.Keys <= old(locks).Keys
        invariant forall f :: f in locks ==> locks[f] == old(locks)[f]
        invariant forall f :: f in old(locks) && f !in todo ==> (f in locks <==> old(locks)[f] != id)
      {
        var f :| f in todo;
        todo := todo - {f};
        if locks[f] == id {
          locks := locks - {f};
        }
      }
    }
  }
}
