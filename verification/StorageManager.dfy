/** The storage manager object, tied to the steps of `StorageIndex`. */
module StorageManager {
  import opened Common
  import opened StorageIndex

  /** The error for a name that is not allowed. */
  function PathError(f: FileId): Error {
    if f == "" then NotFound else Io
  }

  predicate IsFile(disk: map<FileId, Node>, f: FileId) {
    f in disk && disk[f].File?
  }

  /** A file that a scan of the directory takes up. */
  predicate Listed(disk: map<FileId, Node>, f: FileId) {
    IsFile(disk, f) && !(f != "" && f[0] == '.')
  }

  /** The index has the entry it had for f, or a new one with this lock and size; the others stay. */
  ghost predicate EntryMade(before: map<FileId, Entry>, after: map<FileId, Entry>, f: FileId, lock: nat, size: nat) {
    after == if f in before then before else before[f := Entry(lock, size)]
  }

  /** No guard on the lock is in the way: a reader tolerates readers, a writer nobody. */
  ghost predicate Free(guards: map<nat, Guard>, lock: nat, kind: Kind) {
    forall g :: g in guards && guards[g].lock == lock ==> kind == Read && guards[g].kind == Read
  }

  /** A free lock gave one guard on this file, of this kind; otherwise nothing was handed out. */
  ghost predicate Handed(r: Result<nat, Error>, guard: Guard, before: map<nat, Guard>, after: map<nat, Guard>,
                         id: nat) {
    if Free(before, guard.lock, guard.kind) then r == Ok(id) && after == before[id := guard]
    else r == Err(WouldBlock) && after == before
  }

  /** Under the invariant, the guards in the way are those on the file itself. */
  lemma FreeOnFile(s: State, f: FileId, kind: Kind)
    requires Inv(s)
    ensures f in s.index ==> (Free(s.guards, s.index[f].lock, kind) <==>
      forall g :: g in s.guards && s.guards[g].file == f ==> kind == Read && s.guards[g].kind == Read)
    ensures f !in s.index ==> Free(s.guards, s.nextLock, kind) && forall g :: g in s.guards ==> s.guards[g].file != f
    ensures s.nextGuard !in s.guards
  {
  }

  /** The listed files that the index does not know. */
  function NotKnown(disk: map<FileId, Node>, known: set<FileId>): set<FileId> {
    set f | f in disk && Listed(disk, f) && f !in known
  }

  /**
    After a flush the index has the listed files with their sizes, and of the others those in use; locks
    stay, and the files counted are those that were not known.
  */
  ghost predicate Flushed(before: map<FileId, Entry>, disk: map<FileId, Node>, guards: map<nat, Guard>,
                          after: map<FileId, Entry>, discovered: nat) {
    && (forall f :: f in after <==> Listed(disk, f) || (f in before && !Free(guards, before[f].lock, Write)))
    && (forall f :: f in after && Listed(disk, f) ==> after[f].size == disk[f].size)
    && (forall f :: f in after && f in before ==> after[f].lock == before[f].lock)
    && discovered == |NotKnown(disk, before.Keys)|
  }

  lemma DiscoveredAreNotKnown(s: State)
    ensures NotKnown(s.disk, s.index.Keys) == Discovered(s)
  {
    forall f ensures f in NotKnown(s.disk, s.index.Keys) <==> f in Discovered(s) {
      assert f in VisibleFiles(s) <==> f in s.disk && Listed(s.disk, f);
    }
  }

  lemma ReconciledIsFlushed(s: State, s': State, discovered: nat, cleaned: nat)
    requires Reconciled(s, s', discovered, cleaned)
    ensures Flushed(s.index, s.disk, s.guards, s'.index, discovered)
  {
    DiscoveredAreNotKnown(s);
    forall f ensures f in s'.index <==>
        Listed(s.disk, f) || (f in s.index && !Free(s.guards, s.index[f].lock, Write))
    {
      assert f in VisibleFiles(s) <==> Listed(s.disk, f);
      assert f in s'.index <==> f in s'.index.Keys;
    }
  }

  /** The lock an acquire of f asks for: that of its entry, or the next one made. */
  function LockFor(s: State, f: FileId): nat {
    if f in s.index then s.index[f].lock else s.nextLock
  }

  lemma FreeOnFileIfInv(s: State, f: FileId, kind: Kind)
    ensures Inv(s) ==> s.nextGuard !in s.guards
    ensures Inv(s) ==> (Free(s.guards, LockFor(s, f), kind) <==>
      forall g :: g in s.guards && s.guards[g].file == f ==> kind == Read && s.guards[g].kind == Read)
  {
    if Inv(s) {
      FreeOnFile(s, f, kind);
    }
  }

  class Manager {
    var files: map<FileId, Entry>
    var guards: map<nat, Guard>
    var disk: map<FileId, Node>     // the storage directory; other processes change it too
    var nextLock: nat
    var nextGuard: nat
    ghost var waiting: map<nat, Guard>

    ghost function View(): State
      reads this
    {
      State(files, guards, disk, nextLock, nextGuard, waiting)
    }

    /** The index starts with the files of the directory. */
    constructor (disk: map<FileId, Node>)
      ensures View().disk == disk && guards == map[] && Inv(View())
      ensures files.Keys == set f | f in disk && disk[f].File? && !(f != "" && f[0] == '.')
      ensures forall f :: f in files && f in disk && disk[f].File? ==> files[f].size == disk[f].size
    {
      files, guards, this.disk, nextLock, nextGuard, waiting := map[], map[], disk, 0, 0, map[];
      new;
      var todo := set f | f in disk && disk[f].File? && !(f != "" && f[0] == '.');
      ghost var all := todo;
      while todo != {}
        invariant todo <= all && files.Keys == all - todo
        invariant guards == map[] && waiting == map[] && this.disk == disk
        invariant forall f :: f in files ==>
          files[f].lock < nextLock && f in disk && disk[f].File? && files[f].size == disk[f].size
        invariant forall f, h :: f in files && h in files && f != h ==> files[f].lock != files[h].lock
      {
        var f :| f in todo;
        files := files[f := Entry(nextLock, disk[f].size)];
        nextLock := nextLock + 1;
        todo := todo - {f};
      }
    }

    method AddEntry(f: FileId, size: nat)
      modifies this`files, this`nextLock
      ensures View() == WithEntry(old(View()), f, size)
    {
      if f !in files {
        files := files[f := Entry(nextLock, size)];
        nextLock := nextLock + 1;
      }
    }

    method TryLock(f: FileId, kind: Kind) returns (r: Result<nat, Error>)
      requires f in files
      modifies this`guards, this`nextGuard
      ensures View() == if Grantable(old(View()), files[f].lock, kind)
                        then Granted(old(View()), Guard(f, files[f].lock, kind)) else old(View())
      ensures r == if Grantable(old(View()), files[f].lock, kind) then Ok(old(nextGuard)) else Err(WouldBlock)
    {
      var lock := files[f].lock;
      var free := if kind == Read
        then forall g | g in guards :: guards[g].lock == lock ==> guards[g].kind == Read
        else forall g | g in guards :: guards[g].lock != lock;
      if free {
        guards := guards[nextGuard := Guard(f, lock, kind)];
        nextGuard := nextGuard + 1;
        return Ok(nextGuard - 1);
      }
      r := Err(WouldBlock);
    }

    method AcquireRead(f: FileId) returns (r: Result<nat, Error>)
      modifies this
      ensures (r, View()) == Acquire(old(View()), f, Read)
      ensures Inv(old(View())) ==> Inv(View())
      ensures !Allowed(f) ==> r == Err(PathError(f)) && View() == old(View())
      ensures Allowed(f) && f !in old(files) && !IsFile(old(disk), f) ==> r == Err(NotFound) && View() == old(View())
      ensures Allowed(f) && (f in old(files) || IsFile(old(disk), f)) ==>
        && disk == old(disk)
        && EntryMade(old(files), files, f, old(nextLock), if IsFile(old(disk), f) then old(disk)[f].size else 0)
        && Handed(r, Guard(f, files[f].lock, Read), old(guards), guards, old(nextGuard))
      ensures Inv(old(View())) && r.Ok? ==> r.value !in old(guards)
      ensures Inv(old(View())) && Allowed(f) && (f in old(files) || IsFile(old(disk), f)) ==>
        (r.Ok? <==> forall g :: g in old(guards) && old(guards)[g].file == f ==> old(guards)[g].kind == Read)
    {
      ResolveMeans(f);
      FreeOnFileIfInv(View(), f, Read);
      AcquireKeepsInvIfHolds(View(), f, Read);
      var bad := ResolvePath(f);
      if bad.Some? {
        return Err(bad.value);
      }
      if f !in files {
        if f in disk && disk[f].File? {
          AddEntry(f, disk[f].size);
        } else {
          return Err(NotFound);
        }
      }
      r := TryLock(f, Read);
    }

    method AcquireWrite(f: FileId) returns (r: Result<nat, Error>)
      modifies this
      ensures (r, View()) == Acquire(old(View()), f, Write)
      ensures Inv(old(View())) ==> Inv(View())
      ensures !Allowed(f) ==> r == Err(PathError(f)) && View() == old(View())
      ensures Allowed(f) ==>
        && disk == old(disk) && EntryMade(old(files), files, f, old(nextLock), 0)
        && Handed(r, Guard(f, files[f].lock, Write), old(guards), guards, old(nextGuard))
      ensures Inv(old(View())) && r.Ok? ==> r.value !in old(guards)
      ensures Inv(old(View())) && Allowed(f) ==>
        (r.Ok? <==> forall g :: g in old(guards) ==> old(guards)[g].file != f)
    {
      ResolveMeans(f);
      FreeOnFileIfInv(View(), f, Write);
      AcquireKeepsInvIfHolds(View(), f, Write);
      var bad := ResolvePath(f);
      if bad.Some? {
        return Err(bad.value);
      }
      AddEntry(f, 0);
      r := TryLock(f, Write);
    }

    /** First half of an acquire that waits: the lock of the file, made with its entry if need be. */
    method LookUpLock(f: FileId, kind: Kind, ghost ticket: nat) returns (r: Result<nat, Error>)
      modifies this
      ensures View() == BeginAcquire(old(View()), ticket, f, kind)
      ensures r.Ok? <==> Lookup(old(View()), f, kind).Ok?
      ensures !Allowed(f) ==> r == Err(PathError(f)) && View() == old(View())
      ensures Allowed(f) ==> (r.Err? <==> kind == Read && f !in old(files) && !IsFile(old(disk), f))
      ensures Allowed(f) && r.Err? ==> r == Err(NotFound) && View() == old(View())
      ensures r.Ok? ==>
        && disk == old(disk) && guards == old(guards)
        && EntryMade(old(files), files, f, old(nextLock),
                     if kind == Read && IsFile(old(disk), f) then old(disk)[f].size else 0)
        && r.value == files[f].lock && waiting == old(waiting)[ticket := Guard(f, r.value, kind)]
    {
      ResolveMeans(f);
      var bad := ResolvePath(f);
      if bad.Some? {
        return Err(bad.value);
      }
      if kind == Write {
        AddEntry(f, 0);
      } else if f !in files {
        if f in disk && disk[f].File? {
          AddEntry(f, disk[f].size);
        } else {
          return Err(NotFound);
        }
      }
      waiting := waiting[ticket := Guard(f, files[f].lock, kind)];
      r := Ok(files[f].lock);
    }

    /** Second half: the lock that was looked up, whatever the index says by now. */
    method TakeLock(f: FileId, lock: nat, kind: Kind, ghost ticket: nat) returns (r: Option<nat>)
      requires ticket in waiting && waiting[ticket] == Guard(f, lock, kind)
      modifies this
      ensures View() == EndAcquire(old(View()), ticket)
      ensures r == if Grantable(old(View()), lock, kind) then Some(old(nextGuard)) else None
      ensures Inv(old(View())) ==> (Inv(View()) <==> !GrantsStaleLock(old(View()), ticket))
      ensures files == old(files) && disk == old(disk)
      ensures if Free(old(guards), lock, kind)
              then r == Some(old(nextGuard)) && guards == old(guards)[old(nextGuard) := Guard(f, lock, kind)]
              else r == None && guards == old(guards)
    {
      EndKeepsInvIffHeld(View(), ticket);
      var free := if kind == Read
        then forall g | g in guards :: guards[g].lock == lock ==> guards[g].kind == Read
        else forall g | g in guards :: guards[g].lock != lock;
      if !free {
        return None;
      }
      guards := guards[nextGuard := Guard(f, lock, kind)];
      nextGuard := nextGuard + 1;
      waiting := waiting - {ticket};
      r := Some(nextGuard - 1);
    }

    method ReleaseGuard(g: nat, indexFree: bool)
      requires g in guards
      modifies this
      ensures View() == DropGuard(old(View()), g, indexFree)
      ensures guards == old(guards) - {g} && disk == old(disk)
      ensures var f := old(guards)[g].file;
        files == if old(guards)[g].kind == Write && indexFree && f in old(files) && IsFile(disk, f)
                 then old(files)[f := Entry(old(files)[f].lock, disk[f].size)] else old(files)
    {
      var guard := guards[g];
      if guard.kind == Write && indexFree && guard.file in files && guard.file in disk && disk[guard.file].File? {
        files := files[guard.file := files[guard.file].(size := disk[guard.file].size)];
      }
      guards := guards - {g};
    }

    method RemoveFile(f: FileId) returns (r: Result<(), Error>)
      modifies this
      ensures (r, View()) == Remove(old(View()), f)
      ensures !Allowed(f) ==> r == Err(PathError(f))
      ensures Allowed(f) ==>
        r == if f in old(files) && !Free(old(guards), old(files)[f].lock, Write) then Err(InUse)
             else if f in old(files) && f in old(disk) && old(disk)[f].Directory? then Err(Io)
             else Ok(())
      ensures r.Ok? ==> f !in files && !IsFile(disk, f)
      ensures guards == old(guards) && files == if r.Ok? then old(files) - {f} else old(files)
      ensures disk == if r.Ok? && IsFile(old(disk), f) then old(disk) - {f} else old(disk)
    {
      ResolveMeans(f);
      var bad := ResolvePath(f);
      if bad.Some? {
        return Err(bad.value);
      }
      if f !in files {
        if f in disk && disk[f].File? {
          disk := disk - {f};
        }
        return Ok(());
      }
      if forall g | g in guards :: guards[g].lock != files[f].lock {
        if f in disk && disk[f].Directory? {
          return Err(Io);
        }
        if f in disk {
          disk := disk - {f};
        }
        files := files - {f};
        r := Ok(());
      } else {
        r := Err(InUse);
      }
    }

    method FileExists(f: FileId) returns (r: Result<bool, Error>)
      modifies this
      ensures (r, View()) == Exists(old(View()), f)
      ensures !Allowed(f) ==> r == Err(PathError(f))
      ensures Allowed(f) ==> r == Ok(f in old(files) && f in old(disk))
      ensures guards == old(guards) && disk == old(disk)
      ensures files == if Allowed(f) && f !in disk then old(files) - {f} else old(files)
    {
      ResolveMeans(f);
      var bad := ResolvePath(f);
      if bad.Some? {
        return Err(bad.value);
      }
      if f !in files {
        return Ok(false);
      }
      if f in disk && disk[f].File? {
        return Ok(true);
      }
      if f !in disk {
        files := files - {f};
        return Ok(false);
      }
      r := Ok(true);
    }

    /** Phase 1 of `Flush`, one directory entry: insert a new file, refresh a known one. */
    method SeeFile(f: FileId) returns (isNew: bool)
      requires Visible(View(), f)
      modifies this`files, this`nextLock
      ensures View() == FlushSee(old(View()), f)
      ensures isNew <==> f !in old(files)
    {
      if f in files {
        files := files[f := files[f].(size := disk[f].size)];
        isNew := false;
      } else {
        AddEntry(f, disk[f].size);
        isNew := true;
      }
    }

    /** Phase 1 of `Flush`; the directory lists its entries in any order. */
    method ScanDisk() returns (diskFiles: set<FileId>, discovered: nat, ghost visited: seq<FileId>)
      modifies this`files, this`nextLock
      ensures diskFiles == VisibleFiles(old(View()))
      ensures Distinct(visited) && Elements(visited) == diskFiles
      ensures View() == SeeAll(old(View()), visited)
      ensures discovered == NewFiles(old(View()), visited)
    {
      ghost var before := View();
      diskFiles, discovered, visited := {}, 0, [];
      var todo := disk.Keys;
      while todo != {}
        invariant todo <= disk.Keys
        invariant forall f :: f in diskFiles <==> f in disk && f !in todo && Visible(before, f)
        invariant Distinct(visited) && Elements(visited) == diskFiles
        invariant View() == SeeAll(before, visited) && disk == before.disk
        invariant files.Keys == before.index.Keys + diskFiles
        invariant discovered == NewFiles(before, visited)
      {
        var f :| f in todo;
        todo := todo - {f};
        if !((f != "" && f[0] == '.') || disk[f].Directory?) {
          SeeOneMore(before, visited, f);
          var isNew := SeeFile(f);
          visited := visited + [f];
          diskFiles := diskFiles + {f};
          if isNew {
            discovered := discovered + 1;
          }
        }
      }
    }

    /** Phase 2 of `Flush`, one zombie: `try_write` on its lock decides. */
    method CleanZombie(f: FileId) returns (removed: bool)
      requires f in files
      modifies this`files
      ensures View() == FlushClean(old(View()), f)
      ensures View() == old(View()).(index := old(View()).index - if removed then {f} else {})
      ensures removed <==> CanWrite(old(View()), old(files)[f].lock)
    {
      removed := forall g | g in guards :: guards[g].lock != files[f].lock;
      if removed {
        files := files - {f};
      }
    }

    /** Phase 2 of `Flush`, over the index entries without a file. */
    method CleanZombies(diskFiles: set<FileId>) returns (cleaned: nat, ghost visited: seq<FileId>)
      modifies this`files
      ensures Distinct(visited) && Elements(visited) == old(files).Keys - diskFiles
      ensures View() == CleanAll(old(View()), visited)
      ensures cleaned == Dropped(old(View()), visited)
    {
      ghost var before := View();
      cleaned, visited := 0, [];
      var zombies := files.Keys - diskFiles;
      ghost var all := zombies;
      while zombies != {}
        invariant zombies <= all && Distinct(visited) && Elements(visited) == all - zombies
        invariant View() == CleanAll(before, visited)
        invariant guards == before.guards
        invariant forall f :: f in zombies ==> f in files && files[f] == before.index[f]
        invariant cleaned == Dropped(before, visited)
      {
        var f :| f in zombies;
        zombies := zombies - {f};
        assert (visited + [f])[..|visited|] == visited;
        var removed := CleanZombie(f);
        visited := visited + [f];
        if removed {
          cleaned := cleaned + 1;
        }
      }
    }

    method Flush() returns (discovered: nat, cleaned: nat)
      modifies this`files, this`nextLock
      ensures Reconciled(old(View()), View(), discovered, cleaned)
      ensures |files| == |old(files)| + discovered - cleaned
      ensures Flushed(old(files), disk, guards, files, discovered)
      ensures Inv(old(View())) ==> Inv(View())
    {
      ghost var before := View();
      var diskFiles;
      ghost var scan, clean;
      diskFiles, discovered, scan := ScanDisk();
      ghost var scanned := View();
      assert forall i :: 0 <= i < |scan| ==> scan[i] in Elements(scan);
      SeeAllScans(before, scan);
      NewFilesCounts(before, scan);
      NewAmongElements(before, scan);
      cleaned, clean := CleanZombies(diskFiles);
      CleanAllDrops(scanned, clean);
      DroppedCounts(scanned, clean);
      FreeZombies(before, scanned, clean);
      ScannedThenCleaned(before, scanned, View());
      ReconciledIsFlushed(before, View(), discovered, cleaned);
      FlushCountsBalance(before, View(), discovered, cleaned);
      FlushKeepsInv(before, scan, scanned, clean);
    }
  }

  lemma SeeOneMore(s: State, visited: seq<FileId>, f: FileId)
    requires Distinct(visited) && f !in Elements(visited)
    ensures Distinct(visited + [f]) && Elements(visited + [f]) == Elements(visited) + {f}
    ensures SeeAll(s, visited + [f]) == FlushSee(SeeAll(s, visited), f)
    ensures NewFiles(s, visited + [f]) == NewFiles(s, visited) + if f in s.index then 0 else 1
  {
    assert (visited + [f])[..|visited|] == visited;
    PushDistinct(visited, f);
  }

  lemma EndKeepsInvIffHeld(s: State, ticket: nat)
    ensures Inv(s) ==> (Inv(EndAcquire(s, ticket)) <==> !GrantsStaleLock(s, ticket))
  {
    if Inv(s) { EndKeepsInvIff(s, ticket); }
  }

  lemma AcquireKeepsInvIfHolds(s: State, f: FileId, kind: Kind)
    ensures Inv(s) ==> Inv(Acquire(s, f, kind).1)
  {
    if Inv(s) { AcquireKeepsInv(s, f, kind); }
  }

  lemma FlushKeepsInv(s: State, scan: seq<FileId>, s1: State, clean: seq<FileId>)
    requires s1 == SeeAll(s, scan)
    ensures Inv(s) ==> Inv(CleanAll(s1, clean))
  {
    if Inv(s) {
      SeeAllKeepsInv(s, scan);
      CleanAllKeepsInv(s1, clean);
    }
  }
}
