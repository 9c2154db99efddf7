/**
  The storage index: file id -> entry with a reader/writer lock, and the guards handed out on
  those locks. Every method of the manager that touches the index is one step; the directory
  may change between steps.
*/
module StorageIndex {
  import opened Common

  type FileId = string

  datatype Node = File(size: nat) | Directory

  /** Locks are compared by identity, so an entry holds the number its lock was created with. */
  datatype Entry = Entry(lock: nat, size: nat)
  datatype Kind = Read | Write
  datatype Guard = Guard(file: FileId, lock: nat, kind: Kind)

  datatype Error = NotFound | Io | InUse
                 | WouldBlock  // the caller is still waiting for the lock

  datatype State = State(index: map<FileId, Entry>, guards: map<nat, Guard>, disk: map<FileId, Node>,
                         nextLock: nat, nextGuard: nat,
                         waiting: map<nat, Guard>)  // lookups of the two-step acquire not granted yet

  function Init(disk: map<FileId, Node>): State {
    State(map[], map[], disk, 0, 0, map[])
  }

  predicate HasDotDot(f: FileId) {
    |f| >= 2 && ((f[0] == '.' && f[1] == '.') || HasDotDot(f[1..]))
  }

  /** `Resolve_Path`: the error for a file id that is not allowed. */
  function ResolvePath(f: FileId): Option<Error> {
    if f == "" then Some(NotFound)
    else if '/' in f || '\\' in f || HasDotDot(f) then Some(Io)
    else if f[0] == '.' then Some(Io)
    else None
  }

  /** A plain name: not empty, not hidden, without separators or two dots in a row. */
  ghost predicate Allowed(f: FileId) {
    && f != "" && f[0] != '.'
    && (forall i :: 0 <= i < |f| ==> f[i] != '/' && f[i] != '\\')
    && forall i {:trigger f[i]} :: 0 <= i < |f| - 1 ==> !(f[i] == '.' && f[i + 1] == '.')
  }

  lemma {:induction false} DotDotMeans(f: FileId)
    ensures HasDotDot(f) <==> exists i {:trigger f[i]} :: 0 <= i < |f| - 1 && f[i] == '.' && f[i + 1] == '.'
  {
    if |f| >= 2 {
      DotDotMeans(f[1..]);
      if i {:trigger f[i]} :| 0 < i < |f| - 1 && f[i] == '.' && f[i + 1] == '.' {
        assert f[1..][i - 1] == '.' && f[1..][i - 1 + 1] == '.';
      }
      if i {:trigger f[1..][i]} :| 0 <= i < |f[1..]| - 1 && f[1..][i] == '.' && f[1..][i + 1] == '.' {
        assert f[i + 1] == '.' && f[i + 1 + 1] == '.';
      }
    }
  }

  /** Just the plain names resolve; the empty one is not found, the others are errors. */
  lemma ResolveMeans(f: FileId)
    ensures ResolvePath(f).None? <==> Allowed(f)
    ensures !Allowed(f) ==> ResolvePath(f) == Some(if f == "" then NotFound else Io)
  {
    DotDotMeans(f);
  }

  predicate OnDisk(s: State, f: FileId) {
    f in s.disk && s.disk[f].File?
  }

  predicate CanRead(s: State, lock: nat) {
    forall g :: g in s.guards && s.guards[g].lock == lock ==> s.guards[g].kind == Read
  }

  predicate CanWrite(s: State, lock: nat) {
    forall g :: g in s.guards ==> s.guards[g].lock != lock
  }

  /** The entry of f is in the index, with a fresh lock if it was not there. */
  function WithEntry(s: State, f: FileId, size: nat): (s': State)
    ensures f in s'.index
    ensures s'.guards == s.guards
  {
    if f in s.index then s
    else s.(index := s.index[f := Entry(s.nextLock, size)], nextLock := s.nextLock + 1)
  }

  /** `Lazy_Discover` for readers, `Ensure_Entry` for writers. */
  function Lookup(s: State, f: FileId, kind: Kind): (r: Result<State, Error>)
    ensures r.Ok? ==> f in r.value.index && r.value.guards == s.guards
  {
    if ResolvePath(f).Some? then Err(ResolvePath(f).value)
    else if kind == Write then Ok(WithEntry(s, f, 0))
    else if f in s.index then Ok(s)
    else if OnDisk(s, f) then Ok(WithEntry(s, f, s.disk[f].size))
    else Err(NotFound)
  }

  predicate Grantable(s: State, lock: nat, kind: Kind) {
    if kind == Read then CanRead(s, lock) else CanWrite(s, lock)
  }

  function Granted(s: State, g: Guard): State {
    s.(guards := s.guards[s.nextGuard := g], nextGuard := s.nextGuard + 1)
  }

  /** Index lookup and lock grant as one step; a call that must wait has no guard yet. */
  function Acquire(s: State, f: FileId, kind: Kind): (Result<nat, Error>, State) {
    var found := Lookup(s, f, kind);
    if found.Err? then (Err(found.error), s)
    else
      var s1 := found.value;
      var lock := s1.index[f].lock;
      if Grantable(s1, lock, kind) then (Ok(s1.nextGuard), Granted(s1, Guard(f, lock, kind)))
      else (Err(WouldBlock), s1)
  }

  /** First half of a two-step acquire: the lock is looked up, the caller waits for it. */
  function BeginAcquire(s: State, ticket: nat, f: FileId, kind: Kind): State {
    var found := Lookup(s, f, kind);
    if found.Err? then s
    else found.value.(waiting := found.value.waiting[ticket := Guard(f, found.value.index[f].lock, kind)])
  }

  /** Second half: the lock that was looked up is granted. */
  function EndAcquire(s: State, ticket: nat): State {
    if ticket !in s.waiting || !Grantable(s, s.waiting[ticket].lock, s.waiting[ticket].kind) then s
    else Granted(s, s.waiting[ticket]).(waiting := s.waiting - {ticket})
  }

  /** Guard drop; a writer refreshes the size unless the index is busy or the file is gone. */
  function DropGuard(s: State, g: nat, indexFree: bool): State {
    if g !in s.guards then s
    else
      var guard := s.guards[g];
      var s1 := s.(guards := s.guards - {g});
      if guard.kind == Write && indexFree && guard.file in s.index && OnDisk(s, guard.file) then
        s1.(index := s.index[guard.file := s.index[guard.file].(size := s.disk[guard.file].size)])
      else s1
  }

  /** A directory under an indexed id cannot be removed as a file, and the entry stays. */
  function Remove(s: State, f: FileId): (Result<(), Error>, State) {
    if ResolvePath(f).Some? then (Err(ResolvePath(f).value), s)
    else
      var disk' := if OnDisk(s, f) then s.disk - {f} else s.disk;
      if f !in s.index then (Ok(()), s.(disk := disk'))
      else if !CanWrite(s, s.index[f].lock) then (Err(InUse), s)
      else if f in s.disk && s.disk[f].Directory? then (Err(Io), s)
      else (Ok(()), s.(index := s.index - {f}, disk := disk'))
  }

  /** Drops an entry whose file is gone, whether or not its lock is held. */
  function Exists(s: State, f: FileId): (Result<bool, Error>, State) {
    if ResolvePath(f).Some? then (Err(ResolvePath(f).value), s)
    else if f !in s.index then (Ok(false), s)
    else if f in s.disk then (Ok(true), s)
    else (Ok(false), s.(index := s.index - {f}))
  }

  /** Flush, phase 1, for one directory entry. */
  function FlushSee(s: State, f: FileId): State {
    if !Visible(s, f) then s
    else
      var size := s.disk[f].size;
      if f in s.index then s.(index := s.index[f := s.index[f].(size := size)])
      else WithEntry(s, f, size)
  }

  /** Flush, phase 2, for one index entry without a file: only if its lock is free. */
  function FlushClean(s: State, f: FileId): State {
    if f in s.index && CanWrite(s, s.index[f].lock) then s.(index := s.index - {f}) else s
  }

  predicate Visible(s: State, f: FileId) {
    OnDisk(s, f) && !(f != "" && f[0] == '.')
  }

  // ---------------------------------------------------------------- exclusion over all runs

  /** What one reader/writer lock guarantees by itself. */
  ghost predicate LocksExclusive(s: State) {
    forall g, h :: g in s.guards && h in s.guards && g != h && s.guards[g].lock == s.guards[h].lock ==>
      s.guards[g].kind == Read && s.guards[h].kind == Read
  }

  ghost predicate LocksDistinct(s: State) {
    && (forall f :: f in s.index ==> s.index[f].lock < s.nextLock)
    && (forall f, h :: f in s.index && h in s.index && f != h ==> s.index[f].lock != s.index[h].lock)
    && (forall g :: g in s.guards ==> s.guards[g].lock < s.nextLock && g < s.nextGuard)
  }

  /** Every live guard's lock is the lock indexed under its file id. */
  ghost predicate GuardsIndexed(s: State) {
    forall g :: g in s.guards ==>
      s.guards[g].file in s.index && s.index[s.guards[g].file].lock == s.guards[g].lock
  }

  /** A lock that is waited for exists, but its entry may be gone by now. */
  ghost predicate WaitingOk(s: State) {
    forall t :: t in s.waiting ==> s.waiting[t].lock < s.nextLock
  }

  ghost predicate Inv(s: State) {
    LocksExclusive(s) && LocksDistinct(s) && GuardsIndexed(s) && WaitingOk(s)
  }

  /** No writer on a file coexists with any other guard on that file. */
  ghost predicate Exclusive(s: State) {
    forall g, h :: g in s.guards && h in s.guards && g != h && s.guards[g].file == s.guards[h].file ==>
      s.guards[g].kind == Read && s.guards[h].kind == Read
  }

  lemma InvImpliesExclusive(s: State)
    requires Inv(s)
    ensures Exclusive(s)
  {
  }

  ghost predicate HasGuard(s: State, f: FileId) {
    exists g :: g in s.guards && s.guards[g].file == f
  }

  datatype Event =
    | AcquireEv(f: FileId, kind: Kind)
    | DropEv(g: nat, indexFree: bool)
    | RemoveEv(f: FileId)
    | ExistsEv(f: FileId)
    | FlushSeeEv(f: FileId)
    | FlushCleanEv(f: FileId)
    | DiskChange(disk: map<FileId, Node>)
    | BeginEv(ticket: nat, f: FileId, kind: Kind)
    | EndEv(ticket: nat)

  function Step(s: State, e: Event): State {
    match e
    case AcquireEv(f, kind) => Acquire(s, f, kind).1
    case DropEv(g, indexFree) => DropGuard(s, g, indexFree)
    case RemoveEv(f) => Remove(s, f).1
    case ExistsEv(f) => Exists(s, f).1
    case FlushSeeEv(f) => FlushSee(s, f)
    case FlushCleanEv(f) => FlushClean(s, f)
    case DiskChange(disk) => s.(disk := disk)
    case BeginEv(ticket, f, kind) => BeginAcquire(s, ticket, f, kind)
    case EndEv(ticket) => EndAcquire(s, ticket)
  }

  function Run(s: State, es: seq<Event>): State
    decreases |es|
  {
    if es == [] then s else Run(Step(s, es[0]), es[1..])
  }

  ghost predicate DropsGuardedEntry(s: State, f: FileId) {
    ResolvePath(f).None? && f in s.index && f !in s.disk && HasGuard(s, f)
  }

  /** The lock a waiting call looked up is still the one indexed under its file. */
  predicate Current(s: State, ticket: nat)
    requires ticket in s.waiting
  {
    var g := s.waiting[ticket];
    g.file in s.index && s.index[g.file].lock == g.lock
  }

  /** A waiting call gets a lock that is no longer the one of its file. */
  predicate GrantsStaleLock(s: State, ticket: nat) {
    ticket in s.waiting && Grantable(s, s.waiting[ticket].lock, s.waiting[ticket].kind) && !Current(s, ticket)
  }

  /** No `Exists` drops a guarded entry and no waiting call is granted a stale lock. */
  ghost predicate Safe(s: State, e: Event) {
    match e
    case ExistsEv(f) => !DropsGuardedEntry(s, f)
    case EndEv(ticket) => !GrantsStaleLock(s, ticket)
    case _ => true
  }

  ghost predicate SafeRun(s: State, es: seq<Event>)
    decreases |es|
  {
    es == [] || (Safe(s, es[0]) && SafeRun(Step(s, es[0]), es[1..]))
  }

  lemma WithEntryKeepsInv(s: State, f: FileId, size: nat)
    requires Inv(s)
    ensures Inv(WithEntry(s, f, size))
  {
  }

  /** A lookup that succeeds adds at most the entry it was asked for. */
  lemma LookupAddsEntry(s: State, f: FileId, kind: Kind) returns (size: nat)
    ensures Lookup(s, f, kind).Ok? ==> Lookup(s, f, kind).value == WithEntry(s, f, size)
  {
    size := if kind == Read && OnDisk(s, f) then s.disk[f].size else 0;
  }

  lemma GrantKeepsInv(s: State, g: Guard)
    requires Inv(s)
    requires g.file in s.index && s.index[g.file].lock == g.lock && Grantable(s, g.lock, g.kind)
    ensures Inv(Granted(s, g))
  {
    var s' := Granted(s, g);
    forall h, k | h in s'.guards && k in s'.guards && h != k && s'.guards[h].lock == s'.guards[k].lock
      ensures s'.guards[h].kind == Read && s'.guards[k].kind == Read
    {
      if h == s.nextGuard || k == s.nextGuard {
        var other := if h == s.nextGuard then k else h;
        assert other in s.guards && s.guards[other].lock == g.lock;
      }
    }
  }

  lemma AcquireKeepsInv(s: State, f: FileId, kind: Kind)
    requires Inv(s)
    ensures Inv(Acquire(s, f, kind).1)
  {
    var found := Lookup(s, f, kind);
    if found.Ok? {
      var s1 := found.value;
      var size := LookupAddsEntry(s, f, kind);
      WithEntryKeepsInv(s, f, size);
      var g := Guard(f, s1.index[f].lock, kind);
      if Grantable(s1, g.lock, kind) { GrantKeepsInv(s1, g); }
    }
  }

  lemma DropKeepsInv(s: State, g: nat, indexFree: bool)
    requires Inv(s)
    ensures Inv(DropGuard(s, g, indexFree))
  {
  }

  /** A free lock has no guard, so under the invariant dropping its entry orphans nobody. */
  lemma FreeLockUnguarded(s: State, f: FileId)
    requires GuardsIndexed(s) && f in s.index && CanWrite(s, s.index[f].lock)
    ensures !HasGuard(s, f)
  {
  }

  lemma UnguardedEntryDrop(s: State, f: FileId, disk: map<FileId, Node>)
    requires Inv(s) && !HasGuard(s, f)
    ensures Inv(s.(index := s.index - {f}, disk := disk))
  {
    var s' := s.(index := s.index - {f}, disk := disk);
    forall g | g in s'.guards
      ensures s'.guards[g].file in s'.index && s'.index[s'.guards[g].file].lock == s'.guards[g].lock
    {
      assert s.guards[g].file != f;
    }
  }

  lemma RemoveKeepsInv(s: State, f: FileId)
    requires Inv(s)
    ensures Inv(Remove(s, f).1)
  {
    if f in s.index && CanWrite(s, s.index[f].lock) {
      FreeLockUnguarded(s, f);
      UnguardedEntryDrop(s, f, if OnDisk(s, f) then s.disk - {f} else s.disk);
    }
  }

  lemma ExistsKeepsInv(s: State, f: FileId)
    requires Inv(s) && !DropsGuardedEntry(s, f)
    ensures Inv(Exists(s, f).1)
  {
    if ResolvePath(f).None? && f in s.index && f !in s.disk {
      UnguardedEntryDrop(s, f, s.disk);
    }
  }

  lemma FlushSeeKeepsInv(s: State, f: FileId)
    requires Inv(s)
    ensures Inv(FlushSee(s, f))
  {
    if Visible(s, f) {
      WithEntryKeepsInv(s, f, s.disk[f].size);
    }
  }

  lemma FlushCleanKeepsInv(s: State, f: FileId)
    requires Inv(s)
    ensures Inv(FlushClean(s, f))
  {
    if f in s.index && CanWrite(s, s.index[f].lock) {
      FreeLockUnguarded(s, f);
      UnguardedEntryDrop(s, f, s.disk);
    }
  }

  lemma BeginKeepsInv(s: State, ticket: nat, f: FileId, kind: Kind)
    requires Inv(s)
    ensures Inv(BeginAcquire(s, ticket, f, kind))
  {
    var found := Lookup(s, f, kind);
    if found.Ok? {
      var size := LookupAddsEntry(s, f, kind);
      WithEntryKeepsInv(s, f, size);
      WaitKeepsInv(found.value, ticket, Guard(f, found.value.index[f].lock, kind));
    }
  }

  lemma WaitKeepsInv(s: State, ticket: nat, g: Guard)
    requires Inv(s) && g.lock < s.nextLock
    ensures Inv(s.(waiting := s.waiting[ticket := g]))
  {
  }

  /** The second half of an acquire keeps the invariant exactly when the lock it is granted is current. */
  lemma EndKeepsInvIff(s: State, ticket: nat)
    requires Inv(s)
    ensures Inv(EndAcquire(s, ticket)) <==> !GrantsStaleLock(s, ticket)
  {
    if ticket in s.waiting && Grantable(s, s.waiting[ticket].lock, s.waiting[ticket].kind) {
      var s' := Granted(s, s.waiting[ticket]);
      if Current(s, ticket) {
        GrantKeepsInv(s, s.waiting[ticket]);
        assert EndAcquire(s, ticket) == s'.(waiting := s.waiting - {ticket});
      } else {
        assert s.nextGuard in EndAcquire(s, ticket).guards;
        assert !GuardsIndexed(EndAcquire(s, ticket));
      }
    }
  }

  /** `Exists` keeps the invariant exactly when it does not drop an entry with a live guard. */
  lemma ExistsKeepsInvIff(s: State, f: FileId)
    requires Inv(s)
    ensures Inv(Exists(s, f).1) <==> !DropsGuardedEntry(s, f)
  {
    if !DropsGuardedEntry(s, f) {
      ExistsKeepsInv(s, f);
    } else {
      var g :| g in s.guards && s.guards[g].file == f;
      assert f !in Exists(s, f).1.index;
      assert !GuardsIndexed(Exists(s, f).1);
    }
  }

  /** Of all events only those two can break the invariant, and they do so exactly when they are not safe. */
  lemma StepKeepsInvIff(s: State, e: Event)
    requires Inv(s)
    ensures Inv(Step(s, e)) <==> Safe(s, e)
  {
    match e
    case AcquireEv(f, kind) => AcquireKeepsInv(s, f, kind);
    case DropEv(g, indexFree) => DropKeepsInv(s, g, indexFree);
    case RemoveEv(f) => RemoveKeepsInv(s, f);
    case ExistsEv(f) => ExistsKeepsInvIff(s, f);
    case FlushSeeEv(f) => FlushSeeKeepsInv(s, f);
    case FlushCleanEv(f) => FlushCleanKeepsInv(s, f);
    case DiskChange(disk) => assert Inv(Step(s, e));
    case BeginEv(ticket, f, kind) => BeginKeepsInv(s, ticket, f, kind);
    case EndEv(ticket) => EndKeepsInvIff(s, ticket);
  }

  /** The invariant in every state the run goes through. */
  ghost predicate InvThroughout(s: State, es: seq<Event>)
    decreases |es|
  {
    Inv(s) && (es == [] || InvThroughout(Step(s, es[0]), es[1..]))
  }

  /**
    Exclusion over every run, with one-step and two-step acquires mixed at will: the lock of every
    live guard stays the one indexed under its file exactly as long as no `Exists` drops a guarded
    entry and no waiting call is granted a stale lock.
  */
  lemma {:induction false} RunKeepsExclusion(s: State, es: seq<Event>)
    requires Inv(s)
    ensures InvThroughout(s, es) <==> SafeRun(s, es)
    ensures SafeRun(s, es) ==> Inv(Run(s, es)) && Exclusive(Run(s, es))
    decreases |es|
  {
    if es == [] {
      InvImpliesExclusive(s);
    } else {
      StepKeepsInvIff(s, es[0]);
      if Safe(s, es[0]) {
        RunKeepsExclusion(Step(s, es[0]), es[1..]);
      } else {
        assert !InvThroughout(Step(s, es[0]), es[1..]);
      }
    }
  }

  /** The event does not look up the ticket anew. */
  predicate KeepsTicket(e: Event, ticket: nat) {
    e.BeginEv? ==> e.ticket != ticket
  }

  /** What a waiting call looked up goes stale only when the entry of its file leaves the index. */
  lemma StaleOnlyByRemoval(s: State, e: Event, ticket: nat)
    requires WaitingOk(s) && ticket in s.waiting && ticket in Step(s, e).waiting && KeepsTicket(e, ticket)
    ensures Step(s, e).waiting[ticket] == s.waiting[ticket]
    ensures Current(Step(s, e), ticket) <==> Current(s, ticket) && s.waiting[ticket].file in Step(s, e).index
  {
    StepKeepsLocks(s, e, s.waiting[ticket].file, s.waiting[ticket].lock);
  }

  /** No lock of an entry or of a waiting call is yet to be created. */
  ghost predicate LocksKnown(s: State) {
    WaitingOk(s) && forall f :: f in s.index ==> s.index[f].lock < s.nextLock
  }

  /** While an entry stays in the index its lock stays, and a new entry gets a lock nobody looked up before. */
  lemma StepKeepsLocks(s: State, e: Event, f: FileId, lock: nat)
    requires lock < s.nextLock
    ensures var s' := Step(s, e);
      f in s'.index && s'.index[f].lock == lock ==> f in s.index && s.index[f].lock == lock
    ensures f in s.index && f in Step(s, e).index ==> Step(s, e).index[f].lock == s.index[f].lock
  {
    if e.AcquireEv? || e.BeginEv? {
      var size := LookupAddsEntry(s, e.f, e.kind);
    }
  }

  /** Once stale, always stale: the grant is the only thing left that can happen to the call. */
  lemma {:induction false} StaleStaysStale(s: State, es: seq<Event>, ticket: nat)
    requires LocksKnown(s) && ticket in s.waiting && !Current(s, ticket)
    requires forall i :: 0 <= i < |es| ==> KeepsTicket(es[i], ticket) && es[i] != EndEv(ticket)
    ensures ticket in Run(s, es).waiting && !Current(Run(s, es), ticket)
    decreases |es|
  {
    if es != [] {
      StepKeepsWaiting(s, es[0], ticket);
      StepKeepsLocksKnown(s, es[0]);
      StaleOnlyByRemoval(s, es[0], ticket);
      StaleStaysStale(Step(s, es[0]), es[1..], ticket);
    }
  }

  lemma StepKeepsWaiting(s: State, e: Event, ticket: nat)
    requires ticket in s.waiting && KeepsTicket(e, ticket) && e != EndEv(ticket)
    ensures ticket in Step(s, e).waiting
  {
  }

  lemma StepKeepsLocksKnown(s: State, e: Event)
    requires LocksKnown(s)
    ensures LocksKnown(Step(s, e))
  {
    if e.AcquireEv? || e.BeginEv? {
      var size := LookupAddsEntry(s, e.f, e.kind);
      assert LocksKnown(WithEntry(s, e.f, size));
    }
  }

  /** Two writers on one file: write, the file disappears, `Exists`, write again. */
  lemma ExistsBreaksExclusion()
    ensures !Exclusive(Run(Init(map[]), [AcquireEv("a", Write), ExistsEv("a"), AcquireEv("a", Write)]))
  {
    var s0 := Init(map[]);
    var s1 := Step(s0, AcquireEv("a", Write));
    assert ResolvePath("a").None?;
    assert s1.index == map["a" := Entry(0, 0)] && s1.guards == map[0 := Guard("a", 0, Write)];
    var s2 := Step(s1, ExistsEv("a"));
    assert s2.index == map[] && s2.guards == s1.guards && s2.nextLock == 1;
    var s3 := Step(s2, AcquireEv("a", Write));
    assert s3.guards == map[0 := Guard("a", 0, Write), 1 := Guard("a", 1, Write)];
    var es := [AcquireEv("a", Write), ExistsEv("a"), AcquireEv("a", Write)];
    assert es[1..] == [ExistsEv("a"), AcquireEv("a", Write)];
    assert es[1..][1..] == [AcquireEv("a", Write)] && es[1..][1..][1..] == [];
    assert Run(s0, es) == s3;
    assert 0 in s3.guards && 1 in s3.guards;
  }

  /** With lookup and grant as separate steps a removal in between gives two writers. */
  lemma TwoStepAcquireBreaksExclusion()
    ensures !Exclusive(Run(Init(map[]), [BeginEv(7, "a", Write), RemoveEv("a"), AcquireEv("a", Write), EndEv(7)]))
  {
    var es := [BeginEv(7, "a", Write), RemoveEv("a"), AcquireEv("a", Write), EndEv(7)];
    var s0 := Init(map[]);
    assert ResolvePath("a").None?;
    var s1 := Step(s0, es[0]);
    assert s1.index == map["a" := Entry(0, 0)] && s1.waiting == map[7 := Guard("a", 0, Write)];
    var s2 := Step(s1, es[1]);
    assert s2.index == map[] && s2.waiting == s1.waiting && s2.guards == map[];
    var s3 := Step(s2, es[2]);
    assert s3.guards == map[0 := Guard("a", 1, Write)];
    var s4 := Step(s3, es[3]);
    assert s4.guards == map[0 := Guard("a", 1, Write), 1 := Guard("a", 0, Write)];
    assert es[1..][0] == es[1] && es[1..][1..][0] == es[2];
    assert es[1..][1..][1..][0] == es[3] && es[1..][1..][1..][1..] == [];
    assert Run(s0, es) == s4;
    assert 0 in s4.guards && 1 in s4.guards;
  }

  /** The one-step acquire is the two halves with nothing between them. */
  lemma AcquireIsBeginThenEnd(s: State, ticket: nat, f: FileId, kind: Kind)
    requires ticket !in s.waiting && Acquire(s, f, kind).0.Ok?
    ensures EndAcquire(BeginAcquire(s, ticket, f, kind), ticket) == Acquire(s, f, kind).1
  {
    var s1 := Lookup(s, f, kind).value;
    var g := Guard(f, s1.index[f].lock, kind);
    assert s1.waiting[ticket := g] - {ticket} == s1.waiting;
  }

  // ---------------------------------------------------------------- Flush

  function SeeAll(s: State, fs: seq<FileId>): State {
    if fs == [] then s else FlushSee(SeeAll(s, fs[..|fs| - 1]), fs[|fs| - 1])
  }

  function CleanAll(s: State, fs: seq<FileId>): State {
    if fs == [] then s else FlushClean(CleanAll(s, fs[..|fs| - 1]), fs[|fs| - 1])
  }

  /** A flush is a run of steps that each keep the invariant, in whatever order it visits files. */
  lemma {:induction false} SeeAllKeepsInv(s: State, fs: seq<FileId>)
    requires Inv(s)
    ensures Inv(SeeAll(s, fs))
  {
    if fs != [] {
      SeeAllKeepsInv(s, fs[..|fs| - 1]);
      FlushSeeKeepsInv(SeeAll(s, fs[..|fs| - 1]), fs[|fs| - 1]);
    }
  }

  lemma {:induction false} CleanAllKeepsInv(s: State, fs: seq<FileId>)
    requires Inv(s)
    ensures Inv(CleanAll(s, fs))
  {
    if fs != [] {
      CleanAllKeepsInv(s, fs[..|fs| - 1]);
      FlushCleanKeepsInv(CleanAll(s, fs[..|fs| - 1]), fs[|fs| - 1]);
    }
  }

  ghost predicate Held(s: State, f: FileId) {
    f in s.index && !CanWrite(s, s.index[f].lock)
  }

  ghost function VisibleFiles(s: State): set<FileId> {
    set f | f in s.disk && Visible(s, f)
  }

  ghost function Discovered(s: State): set<FileId> {
    VisibleFiles(s) - s.index.Keys
  }

  /** Entries without a file whose lock nobody holds. */
  ghost function Cleaned(s: State): set<FileId> {
    set f | f in s.index && !Visible(s, f) && !Held(s, f)
  }

  /** Entries without a file whose lock is held: `Flush` leaves them alone. */
  ghost function Survivors(s: State): set<FileId> {
    set f | f in s.index && !Visible(s, f) && Held(s, f)
  }

  /** What an undisturbed `Flush` promises; which new lock a new entry gets is not fixed. */
  ghost predicate Reconciled(s: State, s': State, discovered: nat, cleaned: nat) {
    && s'.disk == s.disk && s'.guards == s.guards
    && s'.index.Keys == VisibleFiles(s) + Survivors(s)
    && (forall f :: f in VisibleFiles(s) && f in s'.index ==> s'.index[f].size == s.disk[f].size)
    && (forall f :: f in s.index && f in s'.index ==> s'.index[f].lock == s.index[f].lock)
    && (forall f :: f in s'.index && f !in VisibleFiles(s) ==> f in s.index && s'.index[f] == s.index[f])
    && discovered == |Discovered(s)|
    && cleaned == |Cleaned(s)|
  }

  lemma FlushSets(s: State)
    ensures (VisibleFiles(s) + Survivors(s)) !! Cleaned(s)
    ensures s.index.Keys !! Discovered(s)
    ensures VisibleFiles(s) + Survivors(s) + Cleaned(s) == s.index.Keys + Discovered(s)
  {
  }

  /** The state after phase 1 of `Flush` has handled the directory entries `seen`. */
  ghost predicate Scanned(s: State, s': State, seen: set<FileId>) {
    && s'.disk == s.disk && s'.guards == s.guards
    && s'.index.Keys == s.index.Keys + seen
    && (forall f :: f in seen && f in s'.index ==> f in s.disk && s.disk[f].File? && s'.index[f].size == s.disk[f].size)
    && (forall f :: f in s.index && f in s'.index ==> s'.index[f].lock == s.index[f].lock)
    && (forall f :: f in s.index && f !in seen && f in s'.index ==> s'.index[f] == s.index[f])
  }

  lemma ScanStep(s: State, s': State, seen: set<FileId>, f: FileId)
    requires Scanned(s, s', seen) && Visible(s, f)
    ensures Scanned(s, FlushSee(s', f), seen + {f})
  {
    assert Visible(s', f);
  }

  lemma KeysAfterFlush(s: State, s1: State, s': State)
    requires s1.index.Keys == s.index.Keys + VisibleFiles(s)
    requires s'.index == s1.index - Cleaned(s)
    ensures s'.index.Keys == VisibleFiles(s) + Survivors(s)
  {
    FlushSets(s);
  }

  /** Phase 2 drops exactly the entries without a file whose lock is free. */
  lemma ScannedThenCleaned(s: State, s1: State, s': State)
    requires Scanned(s, s1, VisibleFiles(s))
    requires s' == s1.(index := s1.index - Cleaned(s))
    ensures Reconciled(s, s', |Discovered(s)|, |Cleaned(s)|)
  {
    var visible := VisibleFiles(s);
    KeysAfterFlush(s, s1, s');
    assert forall f :: f in s'.index ==> f in s1.index && s'.index[f] == s1.index[f];
    assert forall f :: f in visible && f in s'.index ==> s'.index[f].size == s.disk[f].size;
    assert forall f :: f in s.index && f in s'.index ==> s'.index[f].lock == s.index[f].lock;
    assert forall f :: f in s'.index && f !in visible ==> f in s.index && s'.index[f] == s.index[f];
  }

  lemma DisjointUnionSize<T>(a: set<T>, b: set<T>)
    requires a !! b
    ensures |a + b| == |a| + |b|
  {
  }

  /** The counts balance the size of the index. */
  lemma FlushCountsBalance(s: State, s': State, discovered: nat, cleaned: nat)
    requires Reconciled(s, s', discovered, cleaned)
    ensures |s'.index| + cleaned == |s.index| + discovered
  {
    FlushSets(s);
    DisjointUnionSize(s'.index.Keys, Cleaned(s));
    DisjointUnionSize(s.index.Keys, Discovered(s));
    assert |s'.index| == |s'.index.Keys| && |s.index| == |s.index.Keys|;
  }

  lemma NothingLeft(s: State, s': State, d: nat, c: nat)
    requires Reconciled(s, s', d, c)
    ensures VisibleFiles(s') == VisibleFiles(s)
    ensures Discovered(s') == {}
    ensures Cleaned(s') == {}
  {
    assert VisibleFiles(s') == VisibleFiles(s);
    forall f | f in s'.index && !Visible(s', f) ensures Held(s', f) {
      assert f in Survivors(s);
      var g :| g in s.guards && s.guards[g].lock == s.index[f].lock;
      assert s'.guards[g].lock == s'.index[f].lock;
    }
  }

  /** A second flush on the same disk and locks discovers and cleans nothing. */
  lemma FlushIdempotent(s: State, s': State, s'': State, d: nat, c: nat, d': nat, c': nat)
    requires Reconciled(s, s', d, c) && Reconciled(s', s'', d', c')
    ensures d' == 0 && c' == 0
    ensures s''.index == s'.index
  {
    NothingLeft(s, s', d, c);
    FlushSets(s');
    assert s''.index.Keys == s'.index.Keys;
    forall f | f in s'.index ensures s''.index[f] == s'.index[f] {
      if f in VisibleFiles(s) {
        assert s''.index[f].size == s.disk[f].size && s'.index[f].size == s.disk[f].size;
      }
    }
  }

  // ---------------------------------------------------------------- the loops of Flush

  function Elements(fs: seq<FileId>): (es: set<FileId>)
    ensures forall f :: f in es <==> f in fs
  {
    set f | f in fs
  }

  ghost predicate Distinct(fs: seq<FileId>) {
    forall i, j :: 0 <= i < j < |fs| ==> fs[i] != fs[j]
  }

  /** Files phase 1 inserted while visiting fs in this order. */
  function NewFiles(s: State, fs: seq<FileId>): nat {
    if fs == [] then 0
    else NewFiles(s, fs[..|fs| - 1]) + if fs[|fs| - 1] in s.index then 0 else 1
  }

  /** Entries phase 2 dropped while visiting fs in this order. */
  function Dropped(s: State, fs: seq<FileId>): nat {
    if fs == [] then 0
    else
      var f := fs[|fs| - 1];
      Dropped(s, fs[..|fs| - 1]) + if f in s.index && CanWrite(s, s.index[f].lock) then 1 else 0
  }

  lemma {:induction false} SeeAllScans(s: State, fs: seq<FileId>)
    requires forall i :: 0 <= i < |fs| ==> Visible(s, fs[i])
    ensures Scanned(s, SeeAll(s, fs), Elements(fs))
  {
    if fs == [] {
      assert Elements(fs) == {};
    } else {
      var n := |fs| - 1;
      SeeAllScans(s, fs[..n]);
      assert Elements(fs) == Elements(fs[..n]) + {fs[n]};
      ScanStep(s, SeeAll(s, fs[..n]), Elements(fs[..n]), fs[n]);
    }
  }

  ghost function NewAmong(s: State, fs: seq<FileId>): set<FileId> {
    set f | f in fs && f !in s.index
  }

  lemma OneMoreNew(s: State, fs: seq<FileId>, f: FileId)
    requires f !in fs
    ensures NewAmong(s, fs + [f]) == if f in s.index then NewAmong(s, fs) else NewAmong(s, fs) + {f}
    ensures f !in NewAmong(s, fs)
  {
  }

  lemma {:induction false} NewFilesCounts(s: State, fs: seq<FileId>)
    requires Distinct(fs)
    ensures NewFiles(s, fs) == |NewAmong(s, fs)|
  {
    if fs == [] {
      assert NewAmong(s, fs) == {};
    } else {
      var n := |fs| - 1;
      NewFilesCounts(s, fs[..n]);
      OneMoreNew(s, fs[..n], fs[n]);
      assert fs[..n] + [fs[n]] == fs;
    }
  }

  lemma NewAmongElements(s: State, fs: seq<FileId>)
    ensures NewAmong(s, fs) == Elements(fs) - s.index.Keys
  {
  }

  /** A list of distinct files with one more. */
  lemma PushDistinct(fs: seq<FileId>, f: FileId)
    requires Distinct(fs) && f !in Elements(fs)
    ensures Distinct(fs + [f]) && Elements(fs + [f]) == Elements(fs) + {f}
  {
  }

  ghost function FreeAmong(s: State, fs: seq<FileId>): set<FileId> {
    set f | f in fs && f in s.index && CanWrite(s, s.index[f].lock)
  }

  lemma OneMoreFree(s: State, fs: seq<FileId>, f: FileId)
    requires f !in fs
    ensures var before := FreeAmong(s, fs);
      FreeAmong(s, fs + [f]) == if f in s.index && CanWrite(s, s.index[f].lock) then before + {f} else before
    ensures f !in FreeAmong(s, fs)
  {
  }

  /** Dropping entries changes neither locks nor guards, so the decisions do not interfere. */
  lemma {:induction false} CleanAllDrops(s: State, fs: seq<FileId>)
    requires Distinct(fs)
    ensures CleanAll(s, fs) == s.(index := s.index - FreeAmong(s, fs))
  {
    if fs == [] {
      assert s.index - FreeAmong(s, fs) == s.index;
    } else {
      var n := |fs| - 1;
      CleanAllDrops(s, fs[..n]);
      OneMoreFree(s, fs[..n], fs[n]);
      assert fs[..n] + [fs[n]] == fs;
      assert s.index - FreeAmong(s, fs[..n]) - {fs[n]} == s.index - (FreeAmong(s, fs[..n]) + {fs[n]});
    }
  }

  lemma {:induction false} DroppedCounts(s: State, fs: seq<FileId>)
    requires Distinct(fs)
    ensures Dropped(s, fs) == |FreeAmong(s, fs)|
  {
    if fs == [] {
      assert FreeAmong(s, fs) == {};
    } else {
      var n := |fs| - 1;
      DroppedCounts(s, fs[..n]);
      OneMoreFree(s, fs[..n], fs[n]);
      assert fs[..n] + [fs[n]] == fs;
    }
  }

  lemma FreeZombies(s: State, s1: State, fs: seq<FileId>)
    requires Scanned(s, s1, VisibleFiles(s))
    requires forall f :: f in fs <==> f in s1.index && f !in VisibleFiles(s)
    ensures FreeAmong(s1, fs) == Cleaned(s)
  {
    forall f ensures f in FreeAmong(s1, fs) <==> f in Cleaned(s) {
      if f in fs {
        assert s1.index[f] == s.index[f];
      } else if f in Cleaned(s) {
        assert f in s1.index;
      }
    }
  }
}
