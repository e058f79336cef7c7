/** Writing a certificate bundle file by file, and rolling it back. */
module Bundles {
  import opened Versions
  import opened AtomicFile
  import opened CertVersion

  const CERT_FILE := "cert.pem"
  const KEY_FILE := "privkey.pem"
  const CHAIN_FILE := "chain.pem"
  const FULLCHAIN_FILE := "fullchain.pem"

  datatype Bundle = Bundle(
    lineage: string,
    domain: string,
    version: BundleVersion,
    certPEM: Bytes,
    keyPEM: Bytes,
    chainPEM: Bytes,
    fullPEM: Bytes)

  /** The four files in the order they are written. */
  function Members(b: Bundle): seq<(string, Bytes)> {
    [(CERT_FILE, b.certPEM), (KEY_FILE, b.keyPEM), (CHAIN_FILE, b.chainPEM), (FULLCHAIN_FILE, b.fullPEM)]
  }

  /** The writes that are due: members without data are skipped. */
  function Wanted(ms: seq<(string, Bytes)>, dir: string): seq<(Path, Bytes)> {
    if ms == [] then []
    else
      var (name, data) := ms[|ms| - 1];
      Wanted(ms[..|ms| - 1], dir) + (if data == "" then [] else [(Path(dir, name), data)])
  }

  function FaultAt(faults: map<Path, Fault>, p: Path): Fault {
    if p in faults then faults[p] else NoFault
  }

  /** Writes one after another, stopping at the first error. */
  function WriteAll(files: Files, ws: seq<(Path, Bytes)>, faults: map<Path, Fault>): WriteResult {
    if ws == [] then WriteResult(files, false, true)
    else
      var r := WriteAll(files, ws[..|ws| - 1], faults);
      if !r.ok then r
      else
        var w := Write(r.files, ws[|ws| - 1].0, ws[|ws| - 1].1, FaultAt(faults, ws[|ws| - 1].0));
        WriteResult(w.files, r.changed || w.changed, w.ok)
  }

  lemma WriteAllSnoc(files: Files, ws: seq<(Path, Bytes)>, p: Path, data: Bytes, faults: map<Path, Fault>)
    requires WriteAll(files, ws, faults).ok
    ensures var r := WriteAll(files, ws, faults); var w := Write(r.files, p, data, FaultAt(faults, p));
            WriteAll(files, ws + [(p, data)], faults) == WriteResult(w.files, r.changed || w.changed, w.ok)
  {
    assert (ws + [(p, data)])[..|ws|] == ws;
  }

  lemma {:induction false} WriteAllStops(files: Files, ws: seq<(Path, Bytes)>, more: seq<(Path, Bytes)>, faults: map<Path, Fault>)
    requires !WriteAll(files, ws, faults).ok
    ensures WriteAll(files, ws + more, faults) == WriteAll(files, ws, faults)
  {
    if more == [] {
      assert ws + more == ws;
    } else {
      assert (ws + more)[..|ws + more| - 1] == ws + more[..|more| - 1];
      WriteAllStops(files, ws, more[..|more| - 1], faults);
    }
  }

  lemma WantedPrefix(ms: seq<(string, Bytes)>, i: nat, dir: string)
    requires i < |ms|
    ensures Wanted(ms[..i + 1], dir) ==
            if ms[i].1 == "" then Wanted(ms[..i], dir) else Wanted(ms[..i], dir) + [(Path(dir, ms[i].0), ms[i].1)]
  {
    assert ms[..i + 1][..i] == ms[..i];
  }

  lemma {:induction false} WantedExtends(ms: seq<(string, Bytes)>, i: nat, dir: string)
    requires i <= |ms|
    ensures exists more :: Wanted(ms, dir) == Wanted(ms[..i], dir) + more
  {
    if i == |ms| {
      assert ms[..i] == ms;
      assert Wanted(ms, dir) == Wanted(ms[..i], dir) + [];
    } else {
      var front := ms[..|ms| - 1];
      WantedExtends(front, i, dir);
      assert front[..i] == ms[..i];
      var more :| Wanted(front, dir) == Wanted(ms[..i], dir) + more;
      var last := if ms[|ms| - 1].1 == "" then [] else [(Path(dir, ms[|ms| - 1].0), ms[|ms| - 1].1)];
      assert Wanted(ms, dir) == Wanted(ms[..i], dir) + (more + last);
    }
  }

  lemma WriteStopped(files: Files, ms: seq<(string, Bytes)>, i: nat, dir: string, faults: map<Path, Fault>)
    requires i <= |ms| && !WriteAll(files, Wanted(ms[..i], dir), faults).ok
    ensures WriteAll(files, Wanted(ms, dir), faults) == WriteAll(files, Wanted(ms[..i], dir), faults)
  {
    WantedExtends(ms, i, dir);
    var more :| Wanted(ms, dir) == Wanted(ms[..i], dir) + more;
    WriteAllStops(files, Wanted(ms[..i], dir), more, faults);
  }

  method WriteBundle(fs: FileSystem, b: Bundle, dir: string, faults: map<Path, Fault>) returns (changed: bool, ok: bool)
    modifies fs
    ensures WriteResult(fs.files, changed, ok) == WriteAll(old(fs.files), Wanted(Members(b), dir), faults)
  {
    changed, ok := WriteMembers(fs, Members(b), dir, faults);
  }

  /** The loop over the bundle's files. */
  method WriteMembers(fs: FileSystem, ms: seq<(string, Bytes)>, dir: string, faults: map<Path, Fault>) returns (changed: bool, ok: bool)
    modifies fs
    ensures WriteResult(fs.files, changed, ok) == WriteAll(old(fs.files), Wanted(ms, dir), faults)
  {
    ghost var was := fs.files;
    changed := false;
    assert WriteAll(was, Wanted(ms[..0], dir), faults) == WriteResult(was, false, true);
    hide WriteAll, Wanted;
    var i := 0;
    while i < |ms|
      invariant 0 <= i <= |ms|
      invariant WriteResult(fs.files, changed, true) == WriteAll(was, Wanted(ms[..i], dir), faults)
    {
      changed, ok := WriteMember(fs, ms, i, dir, faults, changed, was);
      if !ok {
        WriteStopped(was, ms, i + 1, dir, faults);
        return;
      }
      i := i + 1;
    }
    assert ms[..i] == ms;
    return changed, true;
  }

  /** One round of the loop. */
  method WriteMember(fs: FileSystem, ms: seq<(string, Bytes)>, i: nat, dir: string, faults: map<Path, Fault>, before: bool, ghost was: Files)
    returns (changed: bool, ok: bool)
    requires i < |ms| && WriteResult(fs.files, before, true) == WriteAll(was, Wanted(ms[..i], dir), faults)
    modifies fs
    ensures WriteResult(fs.files, changed, ok) == WriteAll(was, Wanted(ms[..i + 1], dir), faults)
  {
    hide WriteAll, Wanted, Write;
    var (name, data) := ms[i];
    WantedPrefix(ms, i, dir);
    changed, ok := before, true;
    if data != "" {
      var p := Path(dir, name);
      WriteAllSnoc(was, Wanted(ms[..i], dir), p, data, faults);
      var c, written := fs.WriteAtomic(p, data, FaultAt(faults, p));
      changed, ok := changed || c, written;
    }
  }

  /** No write touches another write's file or backup. */
  predicate Apart(ws: seq<(Path, Bytes)>) {
    forall i, j :: 0 <= i < |ws| && 0 <= j < |ws| && i != j ==>
      ws[i].0 != ws[j].0 && ws[i].0 != BackupOf(ws[j].0)
  }

  predicate Touches(ws: seq<(Path, Bytes)>, q: Path) {
    exists i :: 0 <= i < |ws| && (q == ws[i].0 || q == BackupOf(ws[i].0))
  }

  lemma {:induction false} WriteAllElsewhere(files: Files, ws: seq<(Path, Bytes)>, faults: map<Path, Fault>, q: Path)
    requires !Touches(ws, q)
    ensures Lookup(WriteAll(files, ws, faults).files, q) == Lookup(files, q)
  {
    if ws != [] {
      var front := ws[..|ws| - 1];
      forall i | 0 <= i < |front| ensures q != front[i].0 && q != BackupOf(front[i].0) {
        assert ws[i] == front[i];
      }
      WriteAllElsewhere(files, front, faults, q);
      assert q != ws[|ws| - 1].0 && q != BackupOf(ws[|ws| - 1].0);
    }
  }

  lemma LastApart(ws: seq<(Path, Bytes)>)
    requires ws != [] && Apart(ws)
    ensures Apart(ws[..|ws| - 1])
    ensures !Touches(ws[..|ws| - 1], ws[|ws| - 1].0) && !Touches(ws[..|ws| - 1], BackupOf(ws[|ws| - 1].0))
  {
    var front, last := ws[..|ws| - 1], ws[|ws| - 1].0;
    forall i | 0 <= i < |front|
      ensures front[i].0 != last && BackupOf(front[i].0) != last && front[i].0 != BackupOf(last) && BackupOf(front[i].0) != BackupOf(last)
    {
      assert ws[i] == front[i];
      BackupOfInjective(front[i].0, last);
    }
    forall i, j | 0 <= i < |front| && 0 <= j < |front| && i != j
      ensures front[i].0 != front[j].0 && front[i].0 != BackupOf(front[j].0)
    {
      assert ws[i] == front[i] && ws[j] == front[j];
    }
  }

  /** Each file and backup ends as its own write alone would leave it. */
  lemma {:induction false} WriteAllAt(files: Files, ws: seq<(Path, Bytes)>, i: nat)
    requires Apart(ws) && i < |ws|
    ensures WriteAll(files, ws, map[]).ok
    ensures var out, one := WriteAll(files, ws, map[]).files, Write(files, ws[i].0, ws[i].1, NoFault).files;
            Lookup(out, ws[i].0) == Lookup(one, ws[i].0) && Lookup(out, BackupOf(ws[i].0)) == Lookup(one, BackupOf(ws[i].0))
  {
    var n := |ws| - 1;
    LastApart(ws);
    NoFaultsOk(files, ws);
    NoFaultsOk(files, ws[..n]);
    if i < n {
      WriteAllAt(files, ws[..n], i);
      assert ws[i] == ws[..n][i];
      BackupOfInjective(ws[i].0, ws[n].0);
    } else {
      WriteAllElsewhere(files, ws[..n], map[], ws[n].0);
      WriteAllElsewhere(files, ws[..n], map[], BackupOf(ws[n].0));
      WriteLocal(WriteAll(files, ws[..n], map[]).files, files, ws[n].0, ws[n].1, NoFault);
    }
  }

  /** Writing reports a change exactly when some file did not have its data already. */
  lemma {:induction false} ChangedIff(files: Files, ws: seq<(Path, Bytes)>)
    requires Apart(ws)
    ensures WriteAll(files, ws, map[]).changed <==> exists i :: 0 <= i < |ws| && Lookup(files, ws[i].0) != Some(ws[i].1)
  {
    if ws != [] {
      var front, last := ws[..|ws| - 1], ws[|ws| - 1];
      LastApart(ws);
      NoFaultsOk(files, front);
      ChangedIff(files, front);
      WriteAllElsewhere(files, front, map[], last.0);
      assert Lookup(WriteAll(files, front, map[]).files, last.0) == Lookup(files, last.0);
      if i :| 0 <= i < |ws| && Lookup(files, ws[i].0) != Some(ws[i].1) {
        if i < |front| {
          assert front[i] == ws[i];
        }
      }
      if i :| 0 <= i < |front| && Lookup(files, front[i].0) != Some(front[i].1) {
        assert ws[i] == front[i];
      }
    }
  }

  /** A write depends only on the file and its backup. */
  lemma WriteLocal(a: Files, b: Files, p: Path, data: Bytes, fault: Fault)
    requires Lookup(a, p) == Lookup(b, p) && Lookup(a, BackupOf(p)) == Lookup(b, BackupOf(p))
    ensures var x, y := Write(a, p, data, fault), Write(b, p, data, fault);
            && x.ok == y.ok && x.changed == y.changed
            && Lookup(x.files, p) == Lookup(y.files, p) && Lookup(x.files, BackupOf(p)) == Lookup(y.files, BackupOf(p))
  {
    BackupOfInjective(p, p);
  }

  lemma {:induction false} NoFaultsOk(files: Files, ws: seq<(Path, Bytes)>)
    ensures WriteAll(files, ws, map[]).ok
  {
    if ws != [] {
      NoFaultsOk(files, ws[..|ws| - 1]);
    }
  }

  predicate IsMember(name: string) {
    name == CERT_FILE || name == KEY_FILE || name == CHAIN_FILE || name == FULLCHAIN_FILE
  }

  /** The bundle's data for a served file name. */
  function DataOf(b: Bundle, name: string): Bytes
    requires IsMember(name)
  {
    if name == CERT_FILE then b.certPEM
    else if name == KEY_FILE then b.keyPEM
    else if name == CHAIN_FILE then b.chainPEM
    else b.fullPEM
  }

  lemma MembersNotBackups(name: string)
    requires IsMember(name)
    ensures !IsBackup(name)
  {
    assert IsBackup(name) ==> name[|name| - 4..] == BACKUP_SUFFIX;
    assert name[|name| - 1] == 'm';
  }

  lemma {:induction false} WantedIs(ms: seq<(string, Bytes)>, dir: string, w: (Path, Bytes))
    ensures w in Wanted(ms, dir) <==> w.1 != "" && w.0.dir == dir && (w.0.name, w.1) in ms
  {
    if ms != [] {
      var front, last := ms[..|ms| - 1], ms[|ms| - 1];
      WantedIs(front, dir, w);
      assert (w.0.name, w.1) in ms <==> (w.0.name, w.1) in front || (w.0.name, w.1) == last;
    }
  }

  predicate DistinctNames(ms: seq<(string, Bytes)>) {
    forall i, j :: 0 <= i < j < |ms| ==> ms[i].0 != ms[j].0
  }

  predicate DistinctPaths(ws: seq<(Path, Bytes)>) {
    forall i, j :: 0 <= i < |ws| && 0 <= j < |ws| && i != j ==> ws[i].0 != ws[j].0
  }

  lemma {:induction false} WantedDistinct(ms: seq<(string, Bytes)>, dir: string)
    requires DistinctNames(ms)
    ensures DistinctPaths(Wanted(ms, dir))
  {
    if ms != [] {
      var front, last := ms[..|ms| - 1], ms[|ms| - 1];
      WantedDistinct(front, dir);
      var ws := Wanted(front, dir);
      forall i | 0 <= i < |ws| ensures ws[i].0 != Path(dir, last.0) {
        WantedIs(front, dir, ws[i]);
        var j :| 0 <= j < |front| && front[j] == (ws[i].0.name, ws[i].1);
        assert ms[j] == front[j];
      }
    }
  }

  /** What a bundle writes: its non-empty members, to separate files none of which is a backup. */
  lemma BundleWrites(b: Bundle, dir: string)
    ensures Apart(Wanted(Members(b), dir))
    ensures forall w :: w in Wanted(Members(b), dir) <==>
              w.0.dir == dir && IsMember(w.0.name) && w.1 == DataOf(b, w.0.name) && w.1 != ""
  {
    var ms := Members(b);
    var ws := Wanted(ms, dir);
    assert DistinctNames(ms);
    WantedDistinct(ms, dir);
    forall w ensures w in ws <==> w.0.dir == dir && IsMember(w.0.name) && w.1 == DataOf(b, w.0.name) && w.1 != "" {
      WantedIs(ms, dir, w);
      MembersHas(b, w.0.name, w.1);
    }
    forall i, j | 0 <= i < |ws| && 0 <= j < |ws| && i != j ensures ws[i].0 != ws[j].0 && ws[i].0 != BackupOf(ws[j].0) {
      assert ws[i] in ws && ws[j] in ws;
      MembersNotBackups(ws[i].0.name);
      BackupNameTrims(ws[j].0.name);
    }
  }

  lemma MembersHas(b: Bundle, name: string, data: Bytes)
    ensures (name, data) in Members(b) <==> IsMember(name) && data == DataOf(b, name)
  {
    var ms := Members(b);
    assert ms[0] == (CERT_FILE, b.certPEM) && ms[1] == (KEY_FILE, b.keyPEM)
        && ms[2] == (CHAIN_FILE, b.chainPEM) && ms[3] == (FULLCHAIN_FILE, b.fullPEM);
    assert CERT_FILE != KEY_FILE && CERT_FILE != CHAIN_FILE && CERT_FILE != FULLCHAIN_FILE
        && KEY_FILE != CHAIN_FILE && KEY_FILE != FULLCHAIN_FILE && CHAIN_FILE != FULLCHAIN_FILE by {
      assert CERT_FILE[1] != KEY_FILE[1] && CERT_FILE[1] != CHAIN_FILE[1] && CERT_FILE[1] != FULLCHAIN_FILE[1];
      assert KEY_FILE[1] != CHAIN_FILE[1] && KEY_FILE[1] != FULLCHAIN_FILE[1] && CHAIN_FILE[1] != FULLCHAIN_FILE[1];
    }
  }

  /** An error-free bundle write into dir, and its rollback. */
  function BundleWritten(files: Files, b: Bundle, dir: string): Files {
    WriteAll(files, Wanted(Members(b), dir), map[]).files
  }

  /** Before the write: the file p would be replaced or created by `data`. */
  predicate WillWrite(files: Files, p: Path, data: Bytes) {
    data != "" && Lookup(files, p) != Some(data)
  }

  /** Before the write: a written file exists already; a file left alone has no backup
      that differs from it. */
  predicate CanUndo(files: Files, p: Path, data: Bytes) {
    if WillWrite(files, p, data) then p in files
    else BackupOf(p) in files ==> p in files && files[BackupOf(p)] == files[p]
  }

  /** The same for the whole directory: an entry named ".bak" stops the rollback before
      it reaches a served file, so then nothing may be written at all. */
  predicate CanUndoIn(files: Files, dir: string, name: string, data: Bytes) {
    if Path(dir, BACKUP_SUFFIX) in files then !WillWrite(files, Path(dir, name), data)
    else CanUndo(files, Path(dir, name), data)
  }

  /** A member without data is left alone, and so is its backup. */
  lemma SkippedUntouched(b: Bundle, dir: string, name: string)
    requires IsMember(name) && DataOf(b, name) == ""
    ensures var ws, p := Wanted(Members(b), dir), Path(dir, name); !Touches(ws, p) && !Touches(ws, BackupOf(p))
  {
    var ws, p := Wanted(Members(b), dir), Path(dir, name);
    BundleWrites(b, dir);
    MembersNotBackups(name);
    BackupNameTrims(name);
    forall i | 0 <= i < |ws| ensures p != ws[i].0 && p != BackupOf(ws[i].0) && BackupOf(p) != ws[i].0 && BackupOf(p) != BackupOf(ws[i].0) {
      assert ws[i] in ws;
      MembersNotBackups(ws[i].0.name);
      BackupNameTrims(ws[i].0.name);
      BackupOfInjective(p, ws[i].0);
    }
  }

  /** What the write leaves at a served file and its backup. */
  lemma BundleWrittenAt(files: Files, b: Bundle, dir: string, name: string)
    requires IsMember(name)
    ensures var out, p, data := BundleWritten(files, b, dir), Path(dir, name), DataOf(b, name);
            && Lookup(out, p) == (if WillWrite(files, p, data) then Some(data) else Lookup(files, p))
            && Lookup(out, BackupOf(p)) == (if WillWrite(files, p, data) && p in files then Some(files[p]) else Lookup(files, BackupOf(p)))
  {
    hide WriteAll, Wanted, Members;
    var ws, p, data := Wanted(Members(b), dir), Path(dir, name), DataOf(b, name);
    BundleWrites(b, dir);
    BackupOfInjective(p, p);
    if data != "" {
      assert (p, data) in ws;
      var i :| 0 <= i < |ws| && ws[i] == (p, data);
      WriteAllAt(files, ws, i);
    } else {
      SkippedUntouched(b, dir, name);
      WriteAllElsewhere(files, ws, map[], p);
      WriteAllElsewhere(files, ws, map[], BackupOf(p));
    }
  }

  /** By the files' own names: each holds its part of the bundle, unless that is empty. */
  lemma BundleFilesByName(files: Files, b: Bundle, dir: string)
    ensures var out := BundleWritten(files, b, dir);
            && (b.certPEM != "" ==> Lookup(out, Path(dir, "cert.pem")) == Some(b.certPEM))
            && (b.keyPEM != "" ==> Lookup(out, Path(dir, "privkey.pem")) == Some(b.keyPEM))
            && (b.chainPEM != "" ==> Lookup(out, Path(dir, "chain.pem")) == Some(b.chainPEM))
            && (b.fullPEM != "" ==> Lookup(out, Path(dir, "fullchain.pem")) == Some(b.fullPEM))
  {
    hide BundleWritten;
    assert CERT_FILE[1] != KEY_FILE[1] && CERT_FILE[1] != CHAIN_FILE[1] && CERT_FILE[1] != FULLCHAIN_FILE[1];
    assert KEY_FILE[1] != CHAIN_FILE[1] && KEY_FILE[1] != FULLCHAIN_FILE[1] && CHAIN_FILE[1] != FULLCHAIN_FILE[1];
    BundleWrittenAt(files, b, dir, CERT_FILE);
    BundleWrittenAt(files, b, dir, KEY_FILE);
    BundleWrittenAt(files, b, dir, CHAIN_FILE);
    BundleWrittenAt(files, b, dir, FULLCHAIN_FILE);
  }

  lemma BlockedReach(name: string)
    requires IsMember(name)
    ensures !Less(BackupName(name), BACKUP_SUFFIX)
  {
    assert BackupName(name)[0] == name[0] && name[0] > BACKUP_SUFFIX[0];
  }

  lemma EmptyStemKept(files: Files, b: Bundle, dir: string)
    ensures Path(dir, BACKUP_SUFFIX) in BundleWritten(files, b, dir) <==> Path(dir, BACKUP_SUFFIX) in files
  {
    var ws, q := Wanted(Members(b), dir), Path(dir, BACKUP_SUFFIX);
    BundleWrites(b, dir);
    forall i | 0 <= i < |ws| ensures q != ws[i].0 && q != BackupOf(ws[i].0) {
      assert ws[i] in ws;
      assert |BackupName(ws[i].0.name)| > 4 && |ws[i].0.name| > 4;
    }
    WriteAllElsewhere(files, ws, map[], q);
  }

  lemma UndoneAt(files: Files, b: Bundle, dir: string, name: string)
    requires IsMember(name)
    ensures var p := Path(dir, name);
            Lookup(RestoredDir(BundleWritten(files, b, dir), dir), p) == Lookup(files, p) <==> CanUndoIn(files, dir, name, DataOf(b, name))
  {
    var p, out := Path(dir, name), BundleWritten(files, b, dir);
    BundleWrittenAt(files, b, dir, name);
    MembersNotBackups(name);
    BlockedReach(name);
    EmptyStemKept(files, b, dir);
    assert Lookup(RestoredDir(out, dir), p) == RestoredAt(out, dir, Reached(out, dir), p);
    if BackupOf(p) in out {
      assert BackupOf(p).name in NamesIn(out, dir);
    }
  }

  /** Rollback of a bundle, exactly: writing it and rolling back gives every served file
      its earlier contents if and only if no file was newly created and no file left
      alone had a leftover backup that differs from it. Whatever else is in the directory. */
  lemma RollbackExactIff(files: Files, b: Bundle, dir: string)
    ensures (forall name :: IsMember(name) ==>
              Lookup(RestoredDir(BundleWritten(files, b, dir), dir), Path(dir, name)) == Lookup(files, Path(dir, name)))
            <==> (forall name :: IsMember(name) ==> CanUndoIn(files, dir, name, DataOf(b, name)))
  {
    forall name | IsMember(name)
      ensures Lookup(RestoredDir(BundleWritten(files, b, dir), dir), Path(dir, name)) == Lookup(files, Path(dir, name))
              <==> CanUndoIn(files, dir, name, DataOf(b, name))
    {
      UndoneAt(files, b, dir, name);
    }
  }

  /** A bundle write changes something exactly when some member is due to be written. */
  lemma BundleChangesIff(files: Files, b: Bundle, dir: string)
    ensures WriteAll(files, Wanted(Members(b), dir), map[]).changed <==>
            exists name :: IsMember(name) && WillWrite(files, Path(dir, name), DataOf(b, name))
  {
    hide WriteAll, Wanted, Members;
    var ws := Wanted(Members(b), dir);
    BundleWrites(b, dir);
    ChangedIff(files, ws);
    if i :| 0 <= i < |ws| && Lookup(files, ws[i].0) != Some(ws[i].1) {
      assert ws[i] in ws;
      assert WillWrite(files, Path(dir, ws[i].0.name), DataOf(b, ws[i].0.name));
    }
    if name :| IsMember(name) && WillWrite(files, Path(dir, name), DataOf(b, name)) {
      assert (Path(dir, name), DataOf(b, name)) in ws;
    }
  }
}
