/** A bundle write that stops half-way: what it leaves, and when a rollback would have
    undone it. */
module PartialWrites {
  import opened Versions
  import opened AtomicFile
  import opened Bundles

  /** What the i-th write does on its own. */
  function Alone(files: Files, ws: seq<(Path, Bytes)>, faults: map<Path, Fault>, i: nat): WriteResult
    requires i < |ws|
  {
    Write(files, ws[i].0, ws[i].1, FaultAt(faults, ws[i].0))
  }

  /** Before the writes: the i-th is the first that will fail. */
  predicate FailsAt(files: Files, ws: seq<(Path, Bytes)>, faults: map<Path, Fault>, i: nat) {
    i < |ws| && !Alone(files, ws, faults, i).ok && WorksUpTo(files, ws, faults, i)
  }

  /** None of the first n writes fails. */
  predicate WorksUpTo(files: Files, ws: seq<(Path, Bytes)>, faults: map<Path, Fault>, n: nat)
    requires n <= |ws|
  {
    forall j :: 0 <= j < n ==> Alone(files, ws, faults, j).ok
  }

  lemma WorksFront(files: Files, ws: seq<(Path, Bytes)>, faults: map<Path, Fault>, n: nat)
    requires 0 < n <= |ws| && WorksUpTo(files, ws, faults, n)
    ensures WorksUpTo(files, ws, faults, n - 1) && Alone(files, ws, faults, n - 1).ok
  {
  }

  /** p and its backup are the same in both. */
  predicate SamePair(a: Files, b: Files, p: Path) {
    Lookup(a, p) == Lookup(b, p) && Lookup(a, BackupOf(p)) == Lookup(b, BackupOf(p))
  }

  lemma WriteElsewhere(files: Files, ws: seq<(Path, Bytes)>, i: nat, j: nat, fault: Fault)
    requires Apart(ws) && i < |ws| && j < |ws| && i != j
    ensures SamePair(Write(files, ws[i].0, ws[i].1, fault).files, files, ws[j].0)
  {
    BackupOfInjective(ws[i].0, ws[j].0);
  }

  /** While no write has failed, each is as if it were alone, and the rest are to come. */
  lemma {:induction false} PrefixAt(files: Files, ws: seq<(Path, Bytes)>, faults: map<Path, Fault>, n: nat, j: nat)
    requires Apart(ws) && n <= |ws| && j < |ws| && WorksUpTo(files, ws, faults, n)
    ensures WriteAll(files, ws[..n], faults).ok
    ensures SamePair(WriteAll(files, ws[..n], faults).files, if j < n then Alone(files, ws, faults, j).files else files, ws[j].0)
  {
    if n > 0 {
      hide WriteAll, Alone, Apart, SamePair, WorksUpTo;
      WorksFront(files, ws, faults, n);
      PrefixAt(files, ws, faults, n - 1, j);
      PrefixAt(files, ws, faults, n - 1, n - 1);
      NextWrite(files, ws, faults, n - 1, j);
    }
  }

  /** One more write after the first n. */
  lemma NextWrite(files: Files, ws: seq<(Path, Bytes)>, faults: map<Path, Fault>, n: nat, j: nat)
    requires Apart(ws) && n < |ws| && j < |ws| && WriteAll(files, ws[..n], faults).ok
    requires SamePair(WriteAll(files, ws[..n], faults).files, files, ws[n].0)
    ensures WriteAll(files, ws[..n + 1], faults).ok == Alone(files, ws, faults, n).ok
    ensures var out := WriteAll(files, ws[..n + 1], faults).files;
            SamePair(out, if j == n then Alone(files, ws, faults, n).files else WriteAll(files, ws[..n], faults).files, ws[j].0)
  {
    var r := WriteAll(files, ws[..n], faults);
    assert ws[..n + 1][..n] == ws[..n];
    WriteLocal(r.files, files, ws[n].0, ws[n].1, FaultAt(faults, ws[n].0));
    if j != n {
      WriteElsewhere(r.files, ws, n, j, FaultAt(faults, ws[n].0));
    }
  }

  /** A bundle write that fails at its i-th file: the files before are as if each were
      written alone, the i-th is as its failure leaves it, the later ones are untouched. */
  lemma HalfWrittenAt(files: Files, ws: seq<(Path, Bytes)>, faults: map<Path, Fault>, i: nat, j: nat)
    requires Apart(ws) && FailsAt(files, ws, faults, i) && j < |ws|
    ensures !WriteAll(files, ws, faults).ok
    ensures SamePair(WriteAll(files, ws, faults).files, if j <= i then Alone(files, ws, faults, j).files else files, ws[j].0)
  {
    hide WriteAll, Write;
    PrefixAt(files, ws, faults, i, j);
    PrefixAt(files, ws, faults, i, i);
    NextWrite(files, ws, faults, i, j);
    WriteAllStops(files, ws[..i + 1], ws[i + 1..], faults);
    assert ws[..i + 1] + ws[i + 1..] == ws;
  }

  /** A file that is left alone, with its backup, survives a rollback. */
  predicate SettledPair(files: Files, p: Path) {
    BackupOf(p) in files ==> p in files && files[BackupOf(p)] == files[p]
  }

  /** Before the write: after it, done or failed, moving the backup over p gives back the
      contents of p. */
  predicate Recoverable(files: Files, p: Path, data: Bytes, fault: Fault) {
    if p in files && !fault.Unreadable? then
      if files[p] == data then SettledPair(files, p)
      else fault.CopyFails? ==> if fault.left.Some? then fault.left.value == files[p] else SettledPair(files, p)
    else if fault.ReplaceFails? then BackupOf(p) !in files
    else p in files && if BackupOf(p) in files then files[BackupOf(p)] == files[p] else files[p] == data
  }

  /** The condition at the j-th file of a write that fails at the i-th. An entry named
      ".bak" keeps the rollback from reaching any served file. */
  predicate HalfRecoverable(files: Files, dir: string, w: (Path, Bytes), fault: Fault, i: nat, j: nat) {
    if Path(dir, BACKUP_SUFFIX) in files then j >= i || Lookup(files, w.0) == Some(w.1)
    else if j > i then SettledPair(files, w.0)
    else Recoverable(files, w.0, w.1, fault)
  }

  /** Rolling back one served file depends on it and its backup only. */
  lemma UndonePair(files: Files, dir: string, name: string)
    requires IsMember(name)
    ensures var p := Path(dir, name);
            Lookup(RestoredDir(files, dir), p) ==
            if BackupOf(p) in files && Path(dir, BACKUP_SUFFIX) !in files then Some(files[BackupOf(p)]) else Lookup(files, p)
  {
    var p := Path(dir, name);
    MembersNotBackups(name);
    BlockedReach(name);
    if BackupOf(p) in files {
      assert BackupOf(p).name in NamesIn(files, dir);
    }
  }

  lemma EmptyStemStays(files: Files, b: Bundle, dir: string, faults: map<Path, Fault>)
    ensures Path(dir, BACKUP_SUFFIX) in WriteAll(files, Wanted(Members(b), dir), faults).files <==> Path(dir, BACKUP_SUFFIX) in files
  {
    var ws, q := Wanted(Members(b), dir), Path(dir, BACKUP_SUFFIX);
    BundleWrites(b, dir);
    forall i | 0 <= i < |ws| ensures q != ws[i].0 && q != BackupOf(ws[i].0) {
      assert ws[i] in ws;
      assert |BackupName(ws[i].0.name)| > 4 && |ws[i].0.name| > 4;
    }
    WriteAllElsewhere(files, ws, faults, q);
  }

  /** A write that fails half-way, exactly: a rollback would give the j-th file its earlier
      contents back if and only if its condition held before the write. */
  lemma HalfWrittenUndoneIff(files: Files, b: Bundle, dir: string, faults: map<Path, Fault>, i: nat, j: nat)
    requires var ws := Wanted(Members(b), dir); FailsAt(files, ws, faults, i) && j < |ws|
    ensures var ws := Wanted(Members(b), dir); var p := ws[j].0;
            Lookup(RestoredDir(WriteAll(files, ws, faults).files, dir), p) == Lookup(files, p)
            <==> HalfRecoverable(files, dir, ws[j], FaultAt(faults, p), i, j)
  {
    hide WriteAll, RestoredDir, Wanted, Members;
    var ws := Wanted(Members(b), dir);
    var p := ws[j].0;
    BundleWrites(b, dir);
    assert ws[j] in ws;
    HalfWrittenAt(files, ws, faults, i, j);
    EmptyStemStays(files, b, dir, faults);
    UndonePair(WriteAll(files, ws, faults).files, dir, p.name);
    BackupOfInjective(p, p);
  }
}
