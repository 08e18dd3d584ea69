/**
 The calls of the file layer (internal/vfs/vfs.go) run one at a time on a volume.
 `Vfs` lets many of them interleave; here each is the procedure itself, with its
 retry loops and its clean-up.  A request may be refused, or carried out and answered, or
 carried out without the caller hearing of it: a cancelled call has already sent its frame.
 */
module FileLayer {
  import opened Common
  import opened Volume
  import opened Vfs

  /** What becomes of one request: refused or never sent; carried out and answered; carried out, the answer lost. */
  datatype Fate = Refused | Heard | Unheard

  /** What goes wrong during one call; `copied` is how far the copy gets when it fails. */
  datatype Faults = Faults(create: Fate, copied: Option<nat>, sync: bool, mkdir: bool, attempt: nat -> Fate,
                           rename: Fate, syncDir: bool, unlink: Fate)

  /** Both retry loops give up after this many collisions in a row. */
  const MAX_RETRIES := 8

  /** Apart from p, names are kept, and a new one is a trash entry for the version p had. */
  ghost predicate KeepsRest(before: map<Path, nat>, after: map<Path, nat>, p: Path) {
    && (forall q | q in before && q != p :: q in after && after[q] == before[q])
    && (forall q | q in after && q !in before && q != p ::
          InTrash(q) && DomainRoot(q) == DomainRoot(p) && p in before && after[q] == before[p])
  }

  /** The version p had, if any, has a new name in p's trash. */
  ghost predicate InTheTrash(before: map<Path, nat>, after: map<Path, nat>, p: Path) {
    p in before ==>
      exists q :: q in after && q !in before && InTrash(q) && DomainRoot(q) == DomainRoot(p) && after[q] == before[p]
  }

  /** A collision that makes the loop try the next name. */
  predicate Taken(names: map<Path, nat>, p: Path, candidates: nat -> string, attempt: nat -> Fate, j: nat)
    requires DomainRoot(p).Some?
  {
    attempt(j).Heard? && p in names && TrashName(p, candidates(j)) in names
  }

  /** The k-th request is the one that settles the matter: all before it met a taken name. */
  ghost predicate Settles(names: map<Path, nat>, p: Path, candidates: nat -> string, attempt: nat -> Fate, k: nat)
    requires DomainRoot(p).Some?
  {
    k <= MAX_RETRIES && (forall j: nat | j < k :: Taken(names, p, candidates, attempt, j))
    && (k < MAX_RETRIES ==> !Taken(names, p, candidates, attempt, k))
  }

  /** The current version can be pinned: the settling request is heard, and finds no version or a free name. */
  ghost predicate Pinnable(names: map<Path, nat>, p: Path, candidates: nat -> string, attempt: nat -> Fate)
    requires DomainRoot(p).Some?
  {
    exists k :: Settles(names, p, candidates, attempt, k) && attempt(k).Heard? && !Taken(names, p, candidates, attempt, k)
  }

  /** The settling request of a removal is carried out, heard of or not, and finds a free name. */
  ghost predicate MovesAway(names: map<Path, nat>, p: Path, candidates: nat -> string, attempt: nat -> Fate)
    requires DomainRoot(p).Some?
  {
    exists k :: Settles(names, p, candidates, attempt, k) && !attempt(k).Refused? && TrashName(p, candidates(k)) !in names
  }

  lemma MovesAwayAt(names: map<Path, nat>, p: Path, candidates: nat -> string, attempt: nat -> Fate, k: nat)
    requires DomainRoot(p).Some? && Settles(names, p, candidates, attempt, k)
    ensures MovesAway(names, p, candidates, attempt) <==> !attempt(k).Refused? && TrashName(p, candidates(k)) !in names
  {
    hide Taken;
    if m :| Settles(names, p, candidates, attempt, m) && !attempt(m).Refused? && TrashName(p, candidates(m)) !in names {
      OneSettles(names, p, candidates, attempt, k, m);
    }
  }

  lemma OneSettles(names: map<Path, nat>, p: Path, candidates: nat -> string, attempt: nat -> Fate, k: nat, m: nat)
    requires DomainRoot(p).Some?
    requires Settles(names, p, candidates, attempt, k) && Settles(names, p, candidates, attempt, m)
    ensures k == m
  {
  }

  /** Other temp names do not matter to pinning. */
  lemma PinnableBesideTemp(names: map<Path, nat>, tmp: Path, i: nat, p: Path, candidates: nat -> string, attempt: nat -> Fate)
    requires DomainRoot(p).Some? && IsTemp(tmp) && !IsTemp(p) && forall k: nat :: !IsTempName(candidates(k))
    ensures Pinnable(names[tmp := i], p, candidates, attempt) <==> Pinnable(names, p, candidates, attempt)
  {
    var after := names[tmp := i];
    forall j: nat ensures Taken(after, p, candidates, attempt, j) == Taken(names, p, candidates, attempt, j) {
      TrashStaysInDomain(p, candidates(j));
    }
    if Pinnable(after, p, candidates, attempt) {
      SameSettling(after, names, p, candidates, attempt);
    }
    if Pinnable(names, p, candidates, attempt) {
      SameSettling(names, after, p, candidates, attempt);
    }
  }

  lemma SameSettling(a: map<Path, nat>, b: map<Path, nat>, p: Path, candidates: nat -> string, attempt: nat -> Fate)
    requires DomainRoot(p).Some?
    requires forall j: nat :: Taken(a, p, candidates, attempt, j) == Taken(b, p, candidates, attempt, j)
    requires Pinnable(a, p, candidates, attempt)
    ensures Pinnable(b, p, candidates, attempt)
  {
    var k :| Settles(a, p, candidates, attempt, k) && attempt(k).Heard? && !Taken(a, p, candidates, attempt, k);
    assert forall j: nat | j < k :: Taken(a, p, candidates, attempt, j) == Taken(b, p, candidates, attempt, j);
    assert Settles(b, p, candidates, attempt, k);
  }

  /** The names of a Write from its link step on, the temp name aside. */
  lemma WriteNames(n0: map<Path, nat>, tmp: Path, ino: nat, p: Path, pin: Path, pinned: bool, n3: map<Path, nat>, replaced: bool)
    requires tmp !in n0 && tmp != p
    requires pinned ==> p in n0 && pin !in n0 && pin != tmp && InTrash(pin) && DomainRoot(pin) == DomainRoot(p)
    requires replaced && p in n0 ==> pinned
    requires var n2 := if pinned then n0[pin := n0[p]] else n0;
             n3 - {tmp} == if replaced then n2[p := ino] else n2
    ensures KeepsRest(n0, n3 - {tmp}, p) && (replaced ==> InTheTrash(n0, n3 - {tmp}, p))
    ensures if replaced then p in n3 && n3[p] == ino else (p in n3 <==> p in n0) && (p in n0 ==> n3[p] == n0[p])
  {
    var n := n3 - {tmp};
    assert p in n <==> p in n3;
    if pinned {
      assert pin in n && n[pin] == n0[p];
    }
  }

  lemma BesideTemp(n0: map<Path, nat>, tmp: Path, ino: nat)
    requires tmp !in n0
    ensures n0 - {tmp} == n0 && n0[tmp := ino] - {tmp} == n0
  {
  }

  /** The names after the last steps of Write, the temp name apart. */
  lemma NamesApartFromTemp(n0: map<Path, nat>, tmp: Path, ino: nat, p: Path, pin: Path, pinned: bool, n3: map<Path, nat>,
                           replaced: bool, kept: bool)
    requires tmp !in n0 && tmp != p && pin != tmp && (pinned ==> p in n0)
    requires var n := if pinned then n0[tmp := ino][pin := n0[p]] else n0[tmp := ino];
             n3 == if replaced then n[p := ino] - {tmp} else if kept then n else n - {tmp}
    ensures var n2 := if pinned then n0[pin := n0[p]] else n0;
            n3 - {tmp} == if replaced then n2[p := ino] else n2
    ensures tmp in n3 <==> !replaced && kept
  {
  }

  lemma RemoveNames(n0: map<Path, nat>, p: Path, to: Path, n1: map<Path, nat>)
    requires p in n0 && to !in n0 && InTrash(to) && DomainRoot(to) == DomainRoot(p)
    requires n1 == n0[to := n0[p]] - {p}
    ensures KeepsRest(n0, n1, p) && InTheTrash(n0, n1, p) && p !in n1
  {
    assert to in n1 && n1[to] == n0[p];
  }

  lemma NothingRemoved(n: map<Path, nat>, p: Path)
    ensures KeepsRest(n, n, p) && KeepsRest(n, n - {p}, p)
  {
  }

  lemma UnlinkNames(fs: Fs, p: Path)
    ensures Unlink(fs, p).1 == (if p in fs.names then OK else ENOENT) && (p !in fs.names ==> Unlink(fs, p).0 == fs)
    ensures Unlink(fs, p).0.names == fs.names - {p} && Unlink(fs, p).0.inodes == fs.inodes
  {
  }

  lemma MovedNames(fs: Fs, from: Path, to: Path, i: nat)
    ensures Unbind(Bind(fs, to, i), from).names == fs.names[to := i] - {from} && Unbind(Bind(fs, to, i), from).inodes == fs.inodes
  {
  }

  lemma BoundNames(fs: Fs, p: Path, i: nat)
    ensures Bind(fs, p, i).names == fs.names[p := i] && Bind(fs, p, i).inodes == fs.inodes
    ensures Bind(fs, p, i).next == fs.next
  {
  }

  lemma Created(fs: Fs, p: Path)
    requires p !in fs.names && fs.next !in fs.inodes
    ensures var c := Create(fs, p).0;
            c.inodes == fs.inodes[fs.next := File([], 0)] && c.names == fs.names[p := fs.next]
            && forall q | q != p :: Past(c, q) == Past(fs, q)
  {
  }

  lemma Appended(fs: Fs, i: nat, chunk: Bytes)
    requires i in fs.inodes && fs.inodes[i] == File([], 0)
    ensures Append(fs, i, chunk) == fs.(inodes := fs.inodes[i := File(chunk, 0)])
    ensures forall q :: Past(Append(fs, i, chunk), q) == Past(fs, q)
  {
    assert [] + chunk == chunk;
  }

  lemma Undone(fs: Fs, p: Path)
    requires p in fs.names
    ensures var u := Unlink(fs, p).0;
            u.names == fs.names - {p} && u.inodes == fs.inodes && forall q | q != p :: Past(u, q) == Past(fs, q)
  {
  }

  lemma SyncedWhole(fs: Fs, i: nat)
    requires i in fs.inodes
    ensures Fsync(fs, i) == fs.(inodes := fs.inodes[i := File(fs.inodes[i].data, |fs.inodes[i].data|)])
    ensures forall q :: Past(Fsync(fs, i), q) == Past(fs, q)
  {
  }

  class FS {
    var fs: Fs

    constructor (fs: Fs)
      ensures this.fs == fs
    {
      this.fs := fs;
    }

    /**
     Pins the current version in the trash under the first candidate name that is free.  The volume
     changes by that one name or not at all, and an error comes with the change exactly when the
     answer to that request was lost.
     */
    method LinkToTrash(p: Path, candidates: nat -> string, attempt: nat -> Fate)
      returns (e: Errno, ghost k: nat, ghost made: bool)
      requires DomainRoot(p).Some?
      modifies this
      ensures Settles(old(fs).names, p, candidates, attempt, k)
      ensures e == OK <==> Pinnable(old(fs).names, p, candidates, attempt)
      ensures e == EEXIST <==> k == MAX_RETRIES && Taken(old(fs).names, p, candidates, attempt, k)
      ensures made <==> p in old(fs).names && TrashName(p, candidates(k)) !in old(fs).names && !attempt(k).Refused?
      ensures fs == if made then Bind(old(fs), TrashName(p, candidates(k)), old(fs).names[p]) else old(fs)
      ensures made ==> (e != OK <==> attempt(k).Unheard?)
      ensures e == OK && p in old(fs).names ==> made
    {
      var i: nat := 0;
      while true
        invariant fs == old(fs) && i <= MAX_RETRIES
        invariant forall j: nat | j < i :: Taken(fs.names, p, candidates, attempt, j)
        decreases MAX_RETRIES + 1 - i
      {
        var (after, code) := Link(fs, p, TrashName(p, candidates(i)));
        if attempt(i).Heard? && code == EEXIST && i < MAX_RETRIES {
          i := i + 1;
          continue;
        }
        assert Settles(old(fs).names, p, candidates, attempt, i);
        forall m | Settles(old(fs).names, p, candidates, attempt, m) ensures m == i {
          OneSettles(old(fs).names, p, candidates, attempt, i, m);
        }
        made := code == OK && !attempt(i).Refused?;
        if !attempt(i).Refused? {
          fs := after;
        }
        if !attempt(i).Heard? {
          return EOTHER, i, made;
        }
        return if code == EEXIST then EEXIST else OK, i, made;
      }
    }

    /**
     Renames p into the trash without ever replacing an entry: again one move or nothing, and an error
     with the move made exactly when its answer was lost.
     */
    method MoveToTrash(p: Path, candidates: nat -> string, attempt: nat -> Fate)
      returns (e: Errno, ghost k: nat, ghost made: bool)
      requires DomainRoot(p).Some?
      modifies this
      ensures Settles(old(fs).names, p, candidates, attempt, k)
      ensures e == OK <==> p in old(fs).names && Pinnable(old(fs).names, p, candidates, attempt)
      ensures e == EEXIST <==> k == MAX_RETRIES && Taken(old(fs).names, p, candidates, attempt, k)
      ensures made <==> p in old(fs).names && TrashName(p, candidates(k)) !in old(fs).names && !attempt(k).Refused?
      ensures fs == if made then Unbind(Bind(old(fs), TrashName(p, candidates(k)), old(fs).names[p]), p) else old(fs)
      ensures made ==> (e != OK <==> attempt(k).Unheard?)
      ensures e == OK ==> made
    {
      var i: nat := 0;
      while true
        invariant fs == old(fs) && i <= MAX_RETRIES
        invariant forall j: nat | j < i :: Taken(fs.names, p, candidates, attempt, j)
        decreases MAX_RETRIES + 1 - i
      {
        var (after, code) := Rename(fs, p, TrashName(p, candidates(i)), true);
        if attempt(i).Heard? && code == EEXIST && i < MAX_RETRIES {
          i := i + 1;
          continue;
        }
        assert Settles(old(fs).names, p, candidates, attempt, i);
        forall m | Settles(old(fs).names, p, candidates, attempt, m) ensures m == i {
          OneSettles(old(fs).names, p, candidates, attempt, i, m);
        }
        made := code == OK && !attempt(i).Refused?;
        if !attempt(i).Refused? {
          fs := after;
        }
        return if attempt(i).Heard? then code else EOTHER, i, made;
      }
    }

    /** The deferred unlink of a failed Write; what becomes of it is ignored. */
    method CleanUp(tmp: Path, fate: Fate)
      modifies this
      ensures fs == if fate.Refused? then old(fs) else Unlink(old(fs), tmp).0
      ensures fs.names == if fate.Refused? then old(fs).names else old(fs).names - {tmp}
      ensures fs.inodes == old(fs).inodes
    {
      if !fate.Refused? {
        var (after, _) := Unlink(fs, tmp);
        fs := after;
      }
    }

    /**
     Steps 1 and 2 of Write: create the temp file, fill it, sync it.  On failure the temp file stays
     exactly when the answer to the creation was lost, for then nothing is cleaned up, or when the
     clean-up itself was refused.
     */
    method FillTemp(tmp: Path, src: Bytes, faults: Faults) returns (ok: bool)
      requires fs.next !in fs.inodes && tmp !in fs.names
      modifies this
      ensures ok <==> faults.create.Heard? && !CopyFails(faults, src) && !faults.sync
      ensures fs.names == if ok || faults.create.Unheard? || (faults.create.Heard? && faults.unlink.Refused?)
                          then old(fs).names[tmp := old(fs).next] else old(fs).names
      ensures ok ==> fs.inodes == old(fs).inodes[old(fs).next := File(src, |src|)]
      ensures forall i | i in old(fs).inodes :: i in fs.inodes && fs.inodes[i] == old(fs).inodes[i]
      ensures forall q | q != tmp :: Past(fs, q) == Past(old(fs), q)
    {
      hide Create, Append, Fsync, Unlink, Past;
      ghost var start := fs;
      var ino := fs.next;
      if faults.create.Refused? {
        return false;
      }
      var (created, _) := Create(fs, tmp);
      Created(start, tmp);
      fs := created;
      if faults.create.Unheard? {
        return false;
      }
      var stop := if CopyFails(faults, src) then faults.copied.value else |src|;
      Appended(fs, ino, src[..stop]);
      fs := Append(fs, ino, src[..stop]);
      if stop < |src| || faults.sync {
        Undone(fs, tmp);
        CleanUp(tmp, faults.unlink);
        assert start.names[tmp := ino] - {tmp} == start.names;
        return false;
      }
      assert src[..stop] == src;
      SyncedWhole(fs, ino);
      fs := Fsync(fs, ino);
      return true;
    }

    /**
     Steps 4 and 5 of Write: one atomic rename, then the directory sync.  The target is replaced unless the
     rename is refused; then an error means a failed sync or a lost answer.
     */
    method Publish(p: Path, tmp: Path, faults: Faults) returns (e: Errno, replaced: bool)
      requires tmp in fs.names && tmp != p && Bound(fs, p) != Bound(fs, tmp)
      modifies this
      ensures replaced <==> !faults.rename.Refused?
      ensures e == OK <==> faults.rename.Heard? && !faults.syncDir
      ensures fs.names == if replaced then old(fs).names[p := old(fs).names[tmp]] - {tmp}
                          else if faults.unlink.Refused? then old(fs).names else old(fs).names - {tmp}
      ensures fs.inodes == old(fs).inodes
      ensures e == OK ==> p !in fs.past
    {
      if faults.rename.Refused? {
        CleanUp(tmp, faults.unlink);
        return EOTHER, false;
      }
      var (renamed, _) := Rename(fs, tmp, p, false);
      fs := renamed;
      if faults.rename.Unheard? || faults.syncDir {
        CleanUp(tmp, faults.unlink);
        return EOTHER, true;
      }
      fs := FsyncDir(fs, Parent(p));
      return OK, true;
    }

    /** Steps 3 to 5 of Write: pin the current version, then publish; without a pin nothing is published. */
    method PinAndPublish(p: Path, tmp: Path, candidates: nat -> string, faults: Faults)
      returns (e: Errno, replaced: bool, ghost k: nat, ghost pinned: bool)
      requires DomainRoot(p).Some? && tmp in fs.names && tmp != p && Bound(fs, p) != Bound(fs, tmp)
      requires forall j: nat :: TrashName(p, candidates(j)) != tmp
      modifies this
      ensures replaced <==> Pinnable(old(fs).names, p, candidates, faults.attempt) && !faults.rename.Refused?
      ensures e == OK <==> replaced && faults.rename.Heard? && !faults.syncDir
      ensures pinned ==> p in old(fs).names && TrashName(p, candidates(k)) !in old(fs).names
      ensures replaced && p in old(fs).names ==> pinned
      ensures var n := if pinned then old(fs).names[TrashName(p, candidates(k)) := old(fs).names[p]] else old(fs).names;
              fs.names == if replaced then n[p := old(fs).names[tmp]] - {tmp}
                          else if faults.unlink.Refused? then n else n - {tmp}
      ensures fs.inodes == old(fs).inodes
      ensures e == OK ==> p !in fs.past
    {
      hide Taken, Settles, Pinnable, Unlink, Past, DomainRoot, TrashName;
      ghost var before := fs;
      e, k, pinned := LinkToTrash(p, candidates, faults.attempt);
      replaced := false;
      if pinned {
        BoundNames(before, TrashName(p, candidates(k)), before.names[p]);
      }
      if e != OK {
        CleanUp(tmp, faults.unlink);
      } else {
        e, replaced := Publish(p, tmp, faults);
      }
    }

    /**
     Write on its own, for every fate of every request: the target holds the whole source or is what it
     was; it is an error with the target replaced exactly when the directory sync failed or the
     rename's answer was lost; and the temp file stays exactly when its creation went unheard or its
     clean-up was refused.
     */
    method Write(p: Path, src: Bytes, suffix: string, candidates: nat -> string, faults: Faults)
      returns (e: Errno, replaced: bool)
      requires fs.next !in fs.inodes && !IsTemp(p) && (p in fs.names ==> fs.names[p] in fs.inodes)
      requires TmpOf(p, suffix) !in fs.names
      requires forall k: nat :: !IsTempName(candidates(k))
      modifies this
      ensures DomainRoot(p).None? ==> e == EINVAL && !replaced && fs == old(fs)
      ensures replaced <==> DomainRoot(p).Some? && faults.create.Heard? && !CopyFails(faults, src) && !faults.sync
                            && !faults.mkdir && Pinnable(old(fs).names, p, candidates, faults.attempt)
                            && !faults.rename.Refused?
      ensures replaced ==> Bound(fs, p) == Some(old(fs).next)
                           && old(fs).next in fs.inodes && fs.inodes[old(fs).next] == File(src, |src|)
      ensures !replaced ==> e != OK && Bound(fs, p) == Bound(old(fs), p)
      ensures replaced ==> (e != OK <==> faults.syncDir || faults.rename.Unheard?)
      ensures e == OK ==> p !in fs.past
      ensures DomainRoot(p).Some? ==>
                (TmpOf(p, suffix) in fs.names <==>
                 faults.create.Unheard? || (faults.create.Heard? && !replaced && faults.unlink.Refused?))
      ensures KeepsRest(old(fs).names, fs.names - {TmpOf(p, suffix)}, p)
      ensures replaced ==> InTheTrash(old(fs).names, fs.names - {TmpOf(p, suffix)}, p)
      ensures forall i | i in old(fs).inodes :: i in fs.inodes && fs.inodes[i] == old(fs).inodes[i]
    {
      hide Taken, Settles, Pinnable, KeepsRest, InTheTrash, InTrash, Bind, Unlink, Past;
      var tmp := TmpOf(p, suffix);
      WriteNames(fs.names, tmp, 0, p, p, false, fs.names, false);
      ghost var n0 := fs.names;
      ghost var next := fs.next;
      BesideTemp(n0, tmp, next);
      if |p| < 2 || DomainRoot(p).None? {
        return EINVAL, false;
      }
      TmpIsTemp(p, suffix);
      var filled := FillTemp(tmp, src, faults);
      if !filled {
        WriteNames(n0, tmp, next, p, p, false, fs.names, false);
        return EOTHER, false;
      }
      if faults.mkdir {
        CleanUp(tmp, faults.unlink);
        WriteNames(n0, tmp, next, p, p, false, fs.names, false);
        return EOTHER, false;
      }
      PinnableBesideTemp(n0, tmp, next, p, candidates, faults.attempt);
      forall j: nat ensures TrashName(p, candidates(j)) != tmp {
        TrashStaysInDomain(p, candidates(j));
      }
      ghost var k: nat, pinned: bool;
      e, replaced, k, pinned := PinAndPublish(p, tmp, candidates, faults);
      TrashStaysInDomain(p, candidates(k));
      ghost var pin := TrashName(p, candidates(k));
      NamesApartFromTemp(n0, tmp, next, p, pin, pinned, fs.names, replaced, faults.unlink.Refused?);
      WriteNames(n0, tmp, next, p, pin, pinned, fs.names, replaced);
    }

    /**
     A delete is a move into the trash, and inside the trash a real one, so that the trash can be emptied.  It is
     made exactly when its last request was carried out, succeeds exactly when that was answered too, and is
     made and reported as an error exactly when the answer was lost.
     */
    method Remove(p: Path, candidates: nat -> string, faults: Faults) returns (e: Errno, ghost last: Fate)
      modifies this
      ensures DomainRoot(p).None? ==> e == EINVAL && fs == old(fs)
      ensures e == OK ==> p in old(fs).names && p !in fs.names
      ensures DomainRoot(p).Some? ==>
                (e == OK <==> p in old(fs).names
                              && if InTrash(p) then faults.unlink.Heard?
                                 else !faults.mkdir && Pinnable(old(fs).names, p, candidates, faults.attempt))
      ensures DomainRoot(p).Some? && p in old(fs).names ==>
                (p !in fs.names <==> if InTrash(p) then !faults.unlink.Refused?
                                     else !faults.mkdir && MovesAway(old(fs).names, p, candidates, faults.attempt))
      ensures InTrash(p) && fs != old(fs) ==> fs.names == old(fs).names - {p}
      ensures fs.inodes == old(fs).inodes
      ensures fs != old(fs) ==> p in old(fs).names && p !in fs.names && (e != OK <==> last.Unheard?)
      ensures KeepsRest(old(fs).names, fs.names, p)
      ensures fs != old(fs) && !InTrash(p) ==> InTheTrash(old(fs).names, fs.names, p)
    {
      hide Taken, Settles, Pinnable, KeepsRest, InTheTrash, MovesAway, Unlink, Bind, Unbind, DomainRoot;
      NothingRemoved(fs.names, p);
      UnlinkNames(fs, p);
      var domain := DomainRoot(p);
      last := Refused;
      if domain.None? {
        return EINVAL, last;
      }
      if InTrash(p) {
        var (after, code) := Unlink(fs, p);
        if !faults.unlink.Refused? {
          fs := after;
        }
        return if faults.unlink.Heard? then code else EOTHER, faults.unlink;
      }
      if faults.mkdir {
        return EOTHER, last;
      }
      ghost var k: nat, made: bool;
      e, k, made := MoveToTrash(p, candidates, faults.attempt);
      last := faults.attempt(k);
      MovesAwayAt(old(fs).names, p, candidates, faults.attempt, k);
      if made {
        TrashStaysInDomain(p, candidates(k));
        MovedNames(old(fs), p, TrashName(p, candidates(k)), old(fs).names[p]);
        RemoveNames(old(fs).names, p, TrashName(p, candidates(k)), fs.names);
      }
    }

    /** A rename stays inside its permission domain and never replaces a name that is taken. */
    method Move(from: Path, to: Path, fate: Fate) returns (e: Errno)
      modifies this
      ensures e == OK <==> Movable(old(fs), from, to) && fate.Heard?
      ensures fs != old(fs) <==> Movable(old(fs), from, to) && !fate.Refused?
      ensures fs != old(fs) ==> from !in fs.names && Bound(fs, to) == Bound(old(fs), from)
      ensures forall q | q != from && q != to :: Bound(fs, q) == Bound(old(fs), q)
    {
      var fromDomain, toDomain := DomainRoot(from), DomainRoot(to);
      if fromDomain.None? || toDomain.None? || fromDomain != toDomain {
        return EINVAL;
      }
      var (after, code) := Rename(fs, from, to, true);
      if !fate.Refused? {
        fs := after;
      }
      assert Movable(old(fs), from, to) ==> from in old(fs).names && from !in after.names;
      return if fate.Heard? then code else EOTHER;
    }
  }

  predicate Movable(fs: Fs, from: Path, to: Path) {
    DomainRoot(from).Some? && DomainRoot(to) == DomainRoot(from) && from in fs.names && to !in fs.names
  }

  predicate CopyFails(faults: Faults, src: Bytes) { faults.copied.Some? && faults.copied.value < |src| }
}
