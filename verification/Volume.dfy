/**
 What the file layer needs of the kernel's filesystem: names bound to inodes, data
 that is durable only once synced, and names that are durable only once their
 directory is synced.  Directories themselves are not modelled.
 */
module Volume {
  import opened Common

  /** A cleaned path relative to the served root, as its components. */
  type Path = seq<string>

  type Bytes = seq<int>

  /** `synced` is how much of the data survives a power loss for certain. */
  datatype File = File(data: Bytes, synced: nat)

  /**
   `past[p]` holds the bindings p may fall back to on a power loss: those it had since
   its directory was last synced.  A name outside `past` is durable.
   */
  datatype Fs = Fs(names: map<Path, nat>, inodes: map<nat, File>, next: nat, past: map<Path, set<Option<nat>>>)

  datatype Errno = OK | ENOENT | EEXIST | EINVAL | EOTHER

  function Parent(p: Path): Path {
    if p == [] then [] else p[..|p| - 1]
  }

  function Bound(fs: Fs, p: Path): Option<nat> {
    if p in fs.names then Some(fs.names[p]) else None
  }

  function Past(fs: Fs, p: Path): set<Option<nat>> {
    if p in fs.past then fs.past[p] else {}
  }

  function Bind(fs: Fs, p: Path, i: nat): Fs {
    fs.(names := fs.names[p := i], past := fs.past[p := Past(fs, p) + {Bound(fs, p)}])
  }

  function Unbind(fs: Fs, p: Path): Fs {
    fs.(names := fs.names - {p}, past := fs.past[p := Past(fs, p) + {Bound(fs, p)}])
  }

  function Create(fs: Fs, p: Path): (Fs, Errno) {
    if p in fs.names then (fs, EEXIST)
    else (Bind(fs, p, fs.next).(inodes := fs.inodes[fs.next := File([], 0)], next := fs.next + 1), OK)
  }

  function Append(fs: Fs, i: nat, chunk: Bytes): Fs {
    if i in fs.inodes then fs.(inodes := fs.inodes[i := fs.inodes[i].(data := fs.inodes[i].data + chunk)]) else fs
  }

  function Fsync(fs: Fs, i: nat): Fs {
    if i in fs.inodes then fs.(inodes := fs.inodes[i := fs.inodes[i].(synced := |fs.inodes[i].data|)]) else fs
  }

  function Link(fs: Fs, from: Path, to: Path): (Fs, Errno) {
    if from !in fs.names then (fs, ENOENT)
    else if to in fs.names then (fs, EEXIST)
    else (Bind(fs, to, fs.names[from]), OK)
  }

  /** Two names of one inode are left alone by a rename, as rename(2) specifies. */
  function Rename(fs: Fs, from: Path, to: Path, noreplace: bool): (Fs, Errno) {
    if from !in fs.names then (fs, ENOENT)
    else if noreplace && to in fs.names then (fs, EEXIST)
    else if Bound(fs, to) == Some(fs.names[from]) then (fs, OK)
    else (Unbind(Bind(fs, to, fs.names[from]), from), OK)
  }

  function Unlink(fs: Fs, p: Path): (Fs, Errno) {
    if p !in fs.names then (fs, ENOENT) else (Unbind(fs, p), OK)
  }

  function FsyncDir(fs: Fs, dir: Path): Fs {
    fs.(past := map p | p in fs.past && Parent(p) != dir :: fs.past[p])
  }

  /** The power fails: unsynced names may fall back and unsynced data may be cut short. */
  ghost predicate PowerLoss(fs: Fs, after: Fs) {
    && after.next == fs.next
    && after.past == map[]
    && (forall p: Path :: Bound(after, p) == Bound(fs, p) || Bound(after, p) in Past(fs, p))
    && after.inodes.Keys == fs.inodes.Keys
    && (forall i | i in fs.inodes ::
          && fs.inodes[i].synced <= |after.inodes[i].data|
          && after.inodes[i].data <= fs.inodes[i].data
          && after.inodes[i].synced == |after.inodes[i].data|)
  }
}
