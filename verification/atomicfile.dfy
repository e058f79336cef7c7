/** Replacing a file with a backup, and undoing it. A file system is a map from paths
    to contents; a replace is one update of the map. */
module AtomicFile {
  import opened Versions

  const BACKUP_SUFFIX := ".bak"

  datatype Path = Path(dir: string, name: string)

  function BackupName(name: string): string {
    name + BACKUP_SUFFIX
  }

  function BackupOf(p: Path): Path {
    Path(p.dir, BackupName(p.name))
  }

  type Files = map<Path, Bytes>

  /** What goes wrong in a write: the existing file cannot be read, its copy to the
      backup fails (leaving nothing new or `left`), or the replace itself fails. */
  datatype Fault = NoFault | Unreadable | CopyFails(left: Option<Bytes>) | ReplaceFails

  datatype WriteResult = WriteResult(files: Files, changed: bool, ok: bool)

  /** WriteAtomic. */
  function Write(files: Files, p: Path, data: Bytes, fault: Fault): WriteResult {
    if p in files && !fault.Unreadable? then
      if files[p] == data then WriteResult(files, false, true)
      else match fault
           case CopyFails(left) => WriteResult(if left.Some? then files[BackupOf(p) := left.value] else files, false, false)
           case ReplaceFails => WriteResult(files[BackupOf(p) := files[p]], false, false)
           case _ => WriteResult(files[BackupOf(p) := files[p]][p := data], true, true)
    else if fault.ReplaceFails? then WriteResult(files, false, false)
    else WriteResult(files[p := data], true, true)
  }

  /** What a write does, path by path and with every fault. It succeeds if the file has the
      data already, or if neither the replace fails nor the copy that a file whose contents
      were read must get first. It reports a change exactly if it has made one. The backup
      gets the old contents as soon as they are read and differ. */
  lemma WriteAt(files: Files, p: Path, data: Bytes, fault: Fault, q: Path)
    ensures var w, bak := Write(files, p, data, fault), Path(p.dir, p.name + ".bak");
            var read := p in files && !fault.Unreadable?;
            var same := read && files[p] == data;
            && (w.ok <==> same || (!fault.ReplaceFails? && !(read && fault.CopyFails?)))
            && (w.changed <==> w.ok && !same)
            && Lookup(w.files, p) == (if w.changed then Some(data) else Lookup(files, p))
            && Lookup(w.files, bak) == (if !read || same then Lookup(files, bak)
                                        else if !fault.CopyFails? then Some(files[p])
                                        else if fault.left.Some? then fault.left else Lookup(files, bak))
            && (q != p && q != bak ==> Lookup(w.files, q) == Lookup(files, q))
  {
    assert |p.name + ".bak"| > |p.name|;
  }

  /** Restore: the backup, if any, is moved over the file. */
  function Restored(files: Files, p: Path): Files {
    if BackupOf(p) in files then (files - {BackupOf(p)})[p := files[BackupOf(p)]] else files
  }

  /** A restore moves the backup: the file gets its contents, the backup is gone, and every
      other path is as before. Without a backup nothing changes. */
  lemma RestoredAtPath(files: Files, p: Path, q: Path)
    ensures var bak := Path(p.dir, p.name + ".bak");
            Lookup(Restored(files, p), q) ==
            if bak !in files then Lookup(files, q)
            else if q == p then Some(files[bak])
            else if q == bak then None
            else Lookup(files, q)
  {
    assert BackupOf(p).name != p.name by { assert |BackupOf(p).name| > |p.name|; }
  }

  predicate IsBackup(name: string) {
    |name| >= 4 && name[|name| - 4..] == BACKUP_SUFFIX
  }

  function Trimmed(name: string): string
    requires IsBackup(name)
  {
    name[..|name| - 4]
  }

  lemma BackupNameTrims(name: string)
    ensures IsBackup(BackupName(name)) && Trimmed(BackupName(name)) == name
    ensures IsBackup(name) ==> BackupName(Trimmed(name)) == name
  {
    assert BackupName(name)[|name|..] == BACKUP_SUFFIX;
    if IsBackup(name) {
      assert name == name[..|name| - 4] + name[|name| - 4..];
    }
  }

  lemma BackupOfInjective(p: Path, q: Path)
    ensures BackupOf(p) == BackupOf(q) <==> p == q
    ensures BackupOf(p) != p
  {
    BackupNameTrims(p.name);
    BackupNameTrims(q.name);
  }

  /** The contents of q once the entries of dir named in `done` have been restored:
      the backup's contents if that has been moved here, nothing if q was itself a
      backup that has been moved away, and otherwise what it was. */
  function RestoredAt(files: Files, dir: string, done: set<string>, q: Path): Option<Bytes> {
    if q.dir == dir && BackupOf(q) in files && BackupName(q.name) in done then Some(files[BackupOf(q)])
    else if q.dir == dir && IsBackup(q.name) && q.name in done then None
    else Lookup(files, q)
  }

  function NamesIn(files: Files, dir: string): set<string> {
    set p | p in files && p.dir == dir :: p.name
  }

  /** The entries that RestoreDir gets to. A backup with an empty stem would have to
      replace the directory itself: that fails, and stops the loop. */
  function Reached(files: Files, dir: string): set<string> {
    if Path(dir, BACKUP_SUFFIX) in files then set name | name in NamesIn(files, dir) && Less(name, BACKUP_SUFFIX)
    else NamesIn(files, dir)
  }

  /** RestoreDir, as a map. */
  function RestoredDir(files: Files, dir: string): (out: Files)
    ensures forall q :: Lookup(out, q) == RestoredAt(files, dir, Reached(files, dir), q)
  {
    RestoredPart(files, dir, Reached(files, dir))
  }

  /** The entries whose rename fails: those of `stuck`, and a backup with an empty stem. */
  predicate Blocks(name: string, stuck: set<string>) {
    IsBackup(name) && (name == BACKUP_SUFFIX || name in stuck)
  }

  predicate Unblocked(files: Files, dir: string, stuck: set<string>) {
    forall name :: name in NamesIn(files, dir) ==> !Blocks(name, stuck)
  }

  /** The entries before the first one that blocks. */
  function ReachedPast(files: Files, dir: string, stuck: set<string>): set<string> {
    set name | name in NamesIn(files, dir) && forall b :: b in NamesIn(files, dir) && Blocks(b, stuck) ==> Less(name, b)
  }

  /** With nothing else stuck, only a backup with an empty stem blocks. */
  lemma NothingStuck(files: Files, dir: string)
    ensures ReachedPast(files, dir, {}) == Reached(files, dir)
  {
    var bare := Path(dir, BACKUP_SUFFIX);
    if bare in files {
      assert bare.name in NamesIn(files, dir) && Blocks(BACKUP_SUFFIX, {});
    }
    forall b | b in NamesIn(files, dir) && Blocks(b, {}) ensures bare in files {
    }
  }

  /** The directory once the entries in `done` have been restored. */
  function RestoredPart(files: Files, dir: string, done: set<string>): (out: Files)
    ensures forall q :: Lookup(out, q) == RestoredAt(files, dir, done, q)
  {
    var targets := set p | p in files && p.dir == dir && IsBackup(p.name) :: Path(dir, Trimmed(p.name));
    var out := map q | q in files.Keys + targets && RestoredAt(files, dir, done, q).Some? :: RestoredAt(files, dir, done, q).value;
    assert forall q :: RestoredAt(files, dir, done, q).Some? ==> q in files.Keys + targets by {
      forall q | RestoredAt(files, dir, done, q).Some? ensures q in files.Keys + targets {
        if q !in files {
          BackupNameTrims(q.name);
          assert BackupOf(q) in files && Path(dir, Trimmed(BackupOf(q).name)) == q;
        }
      }
    }
    out
  }

  /** The name ends in ".bak". */
  ghost predicate EndsInBak(name: string) {
    exists stem: string :: name == stem + ".bak"
  }

  lemma IsBackupIff(name: string)
    ensures IsBackup(name) <==> EndsInBak(name)
  {
    if IsBackup(name) {
      assert name == name[..|name| - 4] + ".bak";
    }
    if stem: string :| name == stem + ".bak" {
      assert name[|name| - 4..] == ".bak";
    }
  }

  /** The rename of the entry fails: it is among those given, or it is named ".bak". */
  ghost predicate RenameFails(name: string, stuck: set<string>) {
    EndsInBak(name) && (name == ".bak" || name in stuck)
  }

  /** The loop gets to the entry: it comes before every entry whose rename fails. */
  ghost predicate GetsTo(files: Files, dir: string, stuck: set<string>, name: string) {
    Path(dir, name) in files && forall b :: Path(dir, b) in files && RenameFails(b, stuck) ==> Less(name, b)
  }

  /** What RestoreDir leaves, path by path: a name with a backup that the loop gets to has
      that backup's contents, any other backup that it gets to is gone, and the rest of the
      directory and everything outside it is as it was. */
  lemma RestoreDirAt(files: Files, dir: string, stuck: set<string>, q: Path)
    ensures var out := RestoredPart(files, dir, ReachedPast(files, dir, stuck));
            Lookup(out, q) ==
            if q.dir == dir && GetsTo(files, dir, stuck, q.name + ".bak") then Some(files[Path(dir, q.name + ".bak")])
            else if q.dir == dir && EndsInBak(q.name) && GetsTo(files, dir, stuck, q.name) then None
            else Lookup(files, q)
  {
    IsBackupIff(q.name);
    GetsToIff(files, dir, stuck, q.name);
    GetsToIff(files, dir, stuck, q.name + ".bak");
  }

  lemma GetsToIff(files: Files, dir: string, stuck: set<string>, name: string)
    ensures GetsTo(files, dir, stuck, name) <==> name in ReachedPast(files, dir, stuck)
  {
    hide Less, EndsInBak, IsBackup;
    forall b ensures b in NamesIn(files, dir) <==> Path(dir, b) in files {
      assert Path(dir, b) in files ==> Path(dir, b).name in NamesIn(files, dir);
    }
    forall b ensures Blocks(b, stuck) <==> RenameFails(b, stuck) {
      IsBackupIff(b);
    }
  }

  /** os.ReadDir: every name once, in order. */
  ghost predicate Listing(files: Files, dir: string, entries: seq<string>) {
    && (forall i :: 0 <= i < |entries| ==> Path(dir, entries[i]) in files)
    && (forall name :: Path(dir, name) in files ==> name in entries)
    && (forall i, j :: 0 <= i < j < |entries| ==> Less(entries[i], entries[j]))
  }

  /** In name order a file comes before its backup. */
  lemma BackupSortsLater(files: Files, dir: string, entries: seq<string>, i: nat, j: nat)
    requires Listing(files, dir, entries) && i <= j < |entries|
    ensures entries[i] != BackupName(entries[j])
    ensures i < j ==> entries[i] != entries[j]
  {
    assert BackupName(entries[j])[..|entries[j]|] == entries[j] == entries[j][..|entries[j]|];
    WitnessGivesLess(entries[j], BackupName(entries[j]), |entries[j]|);
    LessAsymmetric(entries[j], BackupName(entries[j]));
    if i < j {
      LessAsymmetric(entries[i], entries[j]);
    }
  }

  function Taken(entries: seq<string>, i: nat): set<string>
    requires i <= |entries|
  {
    set j | 0 <= j < i :: entries[j]
  }

  /** The first i entries have been dealt with. */
  ghost predicate PartlyRestored(files: Files, dir: string, entries: seq<string>, i: nat, now: Files)
    requires i <= |entries|
  {
    forall q :: Lookup(now, q) == RestoredAt(files, dir, Taken(entries, i), q)
  }

  /** One round of the restore loop. */
  lemma RestoreOne(files: Files, dir: string, entries: seq<string>, i: nat, now: Files)
    requires Listing(files, dir, entries) && i < |entries| && IsBackup(entries[i])
    requires PartlyRestored(files, dir, entries, i, now)
    ensures var from, to := Path(dir, entries[i]), Path(dir, Trimmed(entries[i]));
            && from in now && now[from] == files[from]
            && PartlyRestored(files, dir, entries, i + 1, (now - {from})[to := now[from]])
  {
    var from, to := Path(dir, entries[i]), Path(dir, Trimmed(entries[i]));
    BackupNameTrims(entries[i]);
    assert BackupOf(to) == from;
    assert entries[i] !in Taken(entries, i) && BackupName(entries[i]) !in Taken(entries, i) by {
      forall j | 0 <= j < i ensures entries[j] != entries[i] && entries[j] != BackupName(entries[i]) {
        BackupSortsLater(files, dir, entries, j, i);
      }
    }
    assert Lookup(now, from) == Some(files[from]);
    assert Taken(entries, i + 1) == Taken(entries, i) + {entries[i]};
    assert BackupName(entries[i]) !in Taken(entries, i + 1) by { BackupSortsLater(files, dir, entries, i, i); }
    var next := (now - {from})[to := now[from]];
    forall q ensures Lookup(next, q) == RestoredAt(files, dir, Taken(entries, i + 1), q) {
      BackupOfInjective(q, to);
      assert Lookup(now, q) == RestoredAt(files, dir, Taken(entries, i), q);
    }
  }

  class FileSystem {
    var files: Files

    constructor (files: Files)
      ensures this.files == files
    {
      this.files := files;
    }

    method WriteAtomic(p: Path, data: Bytes, fault: Fault) returns (changed: bool, ok: bool)
      modifies this
      ensures WriteResult(files, changed, ok) == Write(old(files), p, data, fault)
    {
      if p in files && fault != Unreadable {
        if files[p] == data {
          return false, true;
        }
        var copied := CopyFile(p, BackupOf(p), fault);
        if !copied {
          return false, false;
        }
      }
      if fault == ReplaceFails {
        return false, false;
      }
      files := files[p := data];
      return true, true;
    }

    method CopyFile(src: Path, dst: Path, fault: Fault) returns (ok: bool)
      modifies this
      ensures ok <==> src in old(files) && !fault.CopyFails?
      ensures files == if ok then old(files)[dst := old(files)[src]]
                       else if src in old(files) && fault.left.Some? then old(files)[dst := fault.left.value] else old(files)
    {
      if src !in files {
        return false;
      }
      if fault.CopyFails? {
        if fault.left.Some? {
          files := files[dst := fault.left.value];
        }
        return false;
      }
      files := files[dst := files[src]];
      return true;
    }

    /** `fails`: the backup cannot be looked up or moved. */
    method Restore(p: Path, fails: bool) returns (ok: bool)
      modifies this
      ensures ok == !fails
      ensures files == if ok then Restored(old(files), p) else old(files)
    {
      ok := !fails;
      if ok && BackupOf(p) in files {
        var saved := files[BackupOf(p)];
        files := (files - {BackupOf(p)})[p := saved];
      }
    }

    /** os.ReadDir: selects the smallest remaining name until none is left. */
    method ReadDir(dir: string) returns (entries: seq<string>)
      ensures Listing(files, dir, entries)
    {
      entries := [];
      var names := set p | p in files && p.dir == dir :: p.name;
      var rest := names;
      while rest != {}
        invariant rest <= names && forall name :: name in names <==> name in entries || name in rest
        invariant forall i, j :: 0 <= i < j < |entries| ==> Less(entries[i], entries[j])
        invariant forall i, name :: 0 <= i < |entries| && name in rest ==> Less(entries[i], name)
        invariant forall i :: 0 <= i < |entries| ==> entries[i] in names
        decreases rest
      {
        var first := Smallest(rest);
        entries := entries + [first];
        rest := rest - {first};
      }
      forall name | Path(dir, name) in files ensures name in entries {
        assert name in names;
      }
    }

    /** The loop stops at the first rename that fails, or does not start if the directory
        cannot be read. */
    method RestoreDir(dir: string, unreadable: bool, stuck: set<string>) returns (ok: bool)
      modifies this
      ensures ok <==> !unreadable && Unblocked(old(files), dir, stuck)
      ensures files == if unreadable then old(files) else RestoredPart(old(files), dir, ReachedPast(old(files), dir, stuck))
    {
      if unreadable {
        return false;
      }
      ghost var was := files;
      var entries := ReadDir(dir);
      assert Restoring(was, dir, stuck, entries, 0, files);
      hide *;
      var i := 0;
      while i < |entries|
        invariant 0 <= i <= |entries| && Restoring(was, dir, stuck, entries, i, files)
      {
        if Blocks(entries[i], stuck) {
          RestoredUpTo(was, dir, stuck, entries, i, files);
          return false;
        }
        RestoreEntry(dir, stuck, entries, i, was);
        i := i + 1;
      }
      RestoredUpTo(was, dir, stuck, entries, i, files);
      return true;
    }

    /** One round of the loop. */
    method RestoreEntry(dir: string, stuck: set<string>, entries: seq<string>, i: nat, ghost was: Files)
      requires i < |entries| && Restoring(was, dir, stuck, entries, i, files) && !Blocks(entries[i], stuck)
      modifies this
      ensures Restoring(was, dir, stuck, entries, i + 1, files)
    {
      hide PartlyRestored, Listing;
      var name := entries[i];
      if IsBackup(name) {
        RestoreOne(was, dir, entries, i, files);
        var from := Path(dir, name);
        files := (files - {from})[Path(dir, Trimmed(name)) := files[from]];
      } else {
        SkipOne(was, dir, entries, i, files);
      }
    }
  }

  /** The loop has dealt with the first i entries, none of which blocks. */
  ghost predicate Restoring(files: Files, dir: string, stuck: set<string>, entries: seq<string>, i: nat, now: Files) {
    && Listing(files, dir, entries) && i <= |entries| && PartlyRestored(files, dir, entries, i, now)
    && forall j :: 0 <= j < i ==> !Blocks(entries[j], stuck)
  }

  lemma SkipOne(files: Files, dir: string, entries: seq<string>, i: nat, now: Files)
    requires i < |entries| && !IsBackup(entries[i]) && PartlyRestored(files, dir, entries, i, now)
    ensures PartlyRestored(files, dir, entries, i + 1, now)
  {
    assert Taken(entries, i + 1) == Taken(entries, i) + {entries[i]};
    forall q: Path { BackupNameTrims(q.name); }
  }

  /** The loop has come as far as entry i, or to the end, with nothing blocking before. */
  ghost predicate StoppedAt(files: Files, dir: string, stuck: set<string>, entries: seq<string>, i: nat) {
    && Listing(files, dir, entries) && i <= |entries|
    && (forall j :: 0 <= j < i ==> !Blocks(entries[j], stuck))
    && (i < |entries| ==> Blocks(entries[i], stuck))
  }

  lemma ListedNames(files: Files, dir: string, entries: seq<string>, name: string)
    requires Listing(files, dir, entries)
    ensures name in NamesIn(files, dir) <==> name in entries
  {
    if name in NamesIn(files, dir) {
      assert Path(dir, name) in files;
    }
    if name in entries {
      assert Path(dir, name) in files && Path(dir, name).name in NamesIn(files, dir);
    }
  }

  /** Whether an entry comes before the one that stops the loop. */
  lemma ReachedOne(files: Files, dir: string, stuck: set<string>, entries: seq<string>, i: nat, j: nat)
    requires StoppedAt(files, dir, stuck, entries, i) && j < |entries|
    ensures j < i <==> entries[j] in ReachedPast(files, dir, stuck)
  {
    hide Less, Blocks, NamesIn;
    ListedNames(files, dir, entries, entries[j]);
    if j < i {
      forall b | b in NamesIn(files, dir) && Blocks(b, stuck) ensures Less(entries[j], b) {
        ListedNames(files, dir, entries, b);
        var m :| 0 <= m < |entries| && entries[m] == b;
      }
    } else {
      ListedNames(files, dir, entries, entries[i]);
      LessIrreflexive(entries[i]);
      if i < j { LessAsymmetric(entries[i], entries[j]); }
      assert Blocks(entries[i], stuck) && !Less(entries[j], entries[i]);
    }
  }

  /** Where the loop stops, and what it has taken by then. */
  lemma ReachedIs(files: Files, dir: string, stuck: set<string>, entries: seq<string>, i: nat)
    requires StoppedAt(files, dir, stuck, entries, i)
    ensures Taken(entries, i) == ReachedPast(files, dir, stuck)
    ensures i == |entries| <==> Unblocked(files, dir, stuck)
  {
    forall name ensures name in Taken(entries, i) <==> name in ReachedPast(files, dir, stuck) {
      ListedNames(files, dir, entries, name);
      if name in entries {
        var j :| 0 <= j < |entries| && entries[j] == name;
        ReachedOne(files, dir, stuck, entries, i, j);
        if name in Taken(entries, i) {
          var m :| 0 <= m < i && entries[m] == name;
          ReachedOne(files, dir, stuck, entries, i, m);
        }
      }
    }
    forall name | name in NamesIn(files, dir) ensures i == |entries| ==> !Blocks(name, stuck) {
      ListedNames(files, dir, entries, name);
    }
    if i < |entries| {
      ListedNames(files, dir, entries, entries[i]);
    }
  }

  lemma RestoredUpTo(files: Files, dir: string, stuck: set<string>, entries: seq<string>, i: nat, now: Files)
    requires Restoring(files, dir, stuck, entries, i, now) && (i < |entries| ==> Blocks(entries[i], stuck))
    ensures now == RestoredPart(files, dir, ReachedPast(files, dir, stuck))
    ensures i == |entries| <==> Unblocked(files, dir, stuck)
  {
    ReachedIs(files, dir, stuck, entries, i);
    SameLookups(now, RestoredPart(files, dir, ReachedPast(files, dir, stuck)));
  }

  lemma LessIrreflexive(a: string)
    ensures !Less(a, a)
  {
    if Less(a, a) { LessAsymmetric(a, a); }
  }

  method Smallest(names: set<string>) returns (first: string)
    requires names != {}
    ensures first in names && forall name :: name in names && name != first ==> Less(first, name)
  {
    first :| first in names;
    var rest := names - {first};
    while rest != {}
      invariant rest <= names && first in names
      invariant forall name :: name in names - rest && name != first ==> Less(first, name)
      decreases rest
    {
      var name :| name in rest;
      if Less(name, first) {
        forall other | other in names - rest && other != first ensures Less(name, other) {
          LessTransitive(name, first, other);
        }
        first := name;
      } else {
        LessTotal(name, first);
      }
      rest := rest - {name};
    }
  }

  lemma SameLookups<K, V>(a: map<K, V>, b: map<K, V>)
    requires forall k :: Lookup(a, k) == Lookup(b, k)
    ensures a == b
  {
    forall k ensures k in a <==> k in b {
      assert Lookup(a, k) == Lookup(b, k);
    }
    forall k | k in a ensures a[k] == b[k] {
      assert Lookup(a, k) == Lookup(b, k);
    }
  }
}
