/** Certificate lineages in failing ticks: what a rollback gives back, exactly, and how it
    can mix two renewals. */
module CertRollback {
  import opened Versions
  import opened AtomicFile
  import opened Bundles
  import CertVersion
  import opened Providers
  import opened Engine
  import opened TickLaws
  import opened TickRollback
  import PartialWrites

  /** The bundle that wins lineage k. */
  function Winner(t: TickInput, k: string): Bundle
    requires Best(t.locals, t.records, t.env, k).Some?
  {
    FromRecord(Best(t.locals, t.records, t.env, k).value)
  }

  /** Some served file of the lineage is due to be written. */
  ghost predicate Writing(servingDir: string, files: Files, b: Bundle, k: string) {
    exists name :: IsMember(name) && WillWrite(files, Path(LineageDir(servingDir, k), name), DataOf(b, name))
  }

  lemma CertVisit(servingDir: string, files: Files, t: TickInput, k: string)
    requires Keyed(t.records) && Keyed(t.locals) && t.env.faults == map[] && Best(t.locals, t.records, t.env, k).Some?
    ensures var one, b := Alone(Certs(servingDir), files, t, k), Winner(t, k);
            one.files == BundleWritten(files, b, LineageDir(servingDir, k)) && (k in one.changed <==> Writing(servingDir, files, b, k))
  {
    hide WriteAll, Wanted, Members, Best;
    var b, dir := Winner(t, k), LineageDir(servingDir, k);
    BestKeyed(t.locals, t.records, t.env, k);
    BundleChangesIff(files, b, dir);
    NoFaultsOk(files, Wanted(Members(b), dir));
  }

  /** What a tick leaves in the directory of a lineage, whatever else it visits: the
      winner's files if the hook succeeds, and if it fails what a rollback makes of them,
      or the untouched directory if nothing was due. */
  lemma CertTickArea(servingDir: string, files: Files, t: TickInput, k: string)
    requires WellFormed(t) && t.env.faults == map[] && k in t.keys && Best(t.locals, t.records, t.env, k).Some?
    ensures var cfg, b, dir := Certs(servingDir), Winner(t, k), LineageDir(servingDir, k);
            SameArea(cfg, k, After(cfg, files, t),
                     if !t.hookFails || !Writing(servingDir, files, b, k) then BundleWritten(files, b, dir)
                     else RestoredDir(BundleWritten(files, b, dir), dir))
  {
    hide VisitAll, RollbackAll, WriteAll, Wanted, RestoredDir, Writing, VisitKey, Best;
    var cfg, ts := Certs(servingDir), TickState(t.records, files, []);
    var all, one := Visited(cfg, files, t), Alone(cfg, files, t, k);
    ChangedAreVisited(cfg, t.locals, t.env, ts, t.keys);
    LineagesSeparate(servingDir);
    VisitAllAt(cfg, t.locals, t.env, ts, t.keys, k);
    CertVisit(servingDir, files, t, k);
    if k in all.changed {
      RollbackAllAt(cfg, all.files, all.changed, k);
      RollbackSame(cfg, all.files, one.files, k);
    } else {
      forall q | InArea(cfg, k, q) ensures Lookup(RollbackAll(cfg, all.files, all.changed), q) == Lookup(all.files, q) {
        RollbackAllOther(cfg, all.files, all.changed, q);
      }
    }
  }

  /** With nothing due, the write is no write. */
  lemma NothingDue(servingDir: string, files: Files, b: Bundle, k: string)
    requires !Writing(servingDir, files, b, k)
    ensures BundleWritten(files, b, LineageDir(servingDir, k)) == files
  {
    hide WriteAll, Wanted, Members;
    var dir := LineageDir(servingDir, k);
    BundleChangesIff(files, b, dir);
    NoChangeNoTrace(files, Wanted(Members(b), dir));
  }

  /** A lineage in a failing tick, exactly: it gets its served files back if and only if
      none of them was due to be written, or each could be undone, as they were before. */
  lemma FailedCertTickIff(servingDir: string, files: Files, t: TickInput, k: string)
    requires WellFormed(t) && t.env.faults == map[] && t.hookFails && k in t.keys && Best(t.locals, t.records, t.env, k).Some?
    ensures var dir, b := LineageDir(servingDir, k), Winner(t, k);
            (forall name :: IsMember(name) ==> Lookup(After(Certs(servingDir), files, t), Path(dir, name)) == Lookup(files, Path(dir, name)))
            <==> !Writing(servingDir, files, b, k) || forall name :: IsMember(name) ==> CanUndoIn(files, dir, name, DataOf(b, name))
  {
    hide After, WriteAll, Wanted, RestoredDir, CanUndoIn, Writing, Best, BundleWritten;
    var cfg, dir, b := Certs(servingDir), LineageDir(servingDir, k), Winner(t, k);
    CertTickArea(servingDir, files, t, k);
    forall name ensures InArea(cfg, k, Path(dir, name)) {
    }
    if Writing(servingDir, files, b, k) {
      RollbackExactIff(files, b, dir);
    } else {
      NothingDue(servingDir, files, b, k);
    }
  }

  /** A tick in which lineage k is renewed: this node has read bundle b for it, newer than
      the cluster's copy if there is one. */
  predicate Renews(t: TickInput, k: string, b: Bundle, host: string) {
    && WellFormed(t) && t.env.faults == map[] && k in t.keys && b.lineage == k
    && Lookup(t.locals, k) == Some(ToRecord(b, host))
    && (k in t.records ==> Newer(CertVersion.Embed(b.version), t.records[k].version))
  }

  /** What such a tick leaves at a served file of the lineage and at its backup. */
  lemma RenewedAt(servingDir: string, files: Files, t: TickInput, k: string, b: Bundle, host: string, name: string)
    requires Renews(t, k, b, host) && !t.hookFails && IsMember(name)
    ensures var out, p, data := After(Certs(servingDir), files, t), Path(LineageDir(servingDir, k), name), DataOf(b, name);
            && Lookup(out, p) == (if WillWrite(files, p, data) then Some(data) else Lookup(files, p))
            && Lookup(out, BackupOf(p)) == (if WillWrite(files, p, data) && p in files then Some(files[p]) else Lookup(files, BackupOf(p)))
    ensures var bare := Path(LineageDir(servingDir, k), BACKUP_SUFFIX);
            bare in After(Certs(servingDir), files, t) <==> bare in files
  {
    hide After, BundleWritten, CertVersion.Embed;
    var cfg, dir := Certs(servingDir), LineageDir(servingDir, k);
    RenewedWins(t, k, b, host);
    CertTickArea(servingDir, files, t, k);
    BundleWrittenAt(files, Winner(t, k), dir, name);
    EmptyStemKept(files, Winner(t, k), dir);
    var p, bare := Path(dir, name), Path(dir, BACKUP_SUFFIX);
    assert InArea(cfg, k, p) && InArea(cfg, k, BackupOf(p)) && InArea(cfg, k, bare);
    var out := After(cfg, files, t);
    assert Lookup(out, bare) == Lookup(BundleWritten(files, Winner(t, k), dir), bare);
  }

  lemma RenewedWins(t: TickInput, k: string, b: Bundle, host: string)
    requires Renews(t, k, b, host)
    ensures Best(t.locals, t.records, t.env, k) == Some(ToRecord(b, host)) && Winner(t, k) == b.(version := ZERO_VERSION)
  {
    BundleRoundTrip(b, host);
  }

  /** What a failing renewal leaves at a served file. */
  lemma RolledBackAt(servingDir: string, files: Files, t: TickInput, k: string, b: Bundle, host: string, name: string)
    requires Renews(t, k, b, host) && t.hookFails && IsMember(name) && Writing(servingDir, files, b, k)
    requires Path(LineageDir(servingDir, k), BACKUP_SUFFIX) !in files
    ensures var out, p, data := After(Certs(servingDir), files, t), Path(LineageDir(servingDir, k), name), DataOf(b, name);
            Lookup(out, p) == if WillWrite(files, p, data) && p in files then Some(files[p])
                              else if BackupOf(p) in files then Some(files[BackupOf(p)])
                              else if WillWrite(files, p, data) then Some(data) else Lookup(files, p)
  {
    hide After, BundleWritten, CertVersion.Embed, RestoredDir, Writing;
    var cfg, dir := Certs(servingDir), LineageDir(servingDir, k);
    RenewedWins(t, k, b, host);
    SameWriting(servingDir, files, b, k);
    CertTickArea(servingDir, files, t, k);
    BundleWrittenAt(files, Winner(t, k), dir, name);
    EmptyStemKept(files, Winner(t, k), dir);
    PartialWrites.UndonePair(BundleWritten(files, Winner(t, k), dir), dir, name);
    assert InArea(cfg, k, Path(dir, name));
  }

  /** Whether a bundle has anything to write does not depend on its version. */
  lemma SameWriting(servingDir: string, files: Files, b: Bundle, k: string)
    ensures Writing(servingDir, files, b, k) <==> Writing(servingDir, files, b.(version := ZERO_VERSION), k)
  {
    var b' := b.(version := ZERO_VERSION);
    assert forall name :: IsMember(name) ==> DataOf(b, name) == DataOf(b', name);
  }

  /** Three renewals with three certificates, of which the third keeps the chain of the
      second. */
  predicate ChainReused(a: Bundle, b: Bundle, c: Bundle) {
    && a.certPEM != "" && b.certPEM != "" && c.certPEM != ""
    && a.certPEM != b.certPEM && b.certPEM != c.certPEM
    && a.chainPEM != "" && b.chainPEM != "" && a.chainPEM != b.chainPEM && b.chainPEM == c.chainPEM
  }

  /** The engine's promise fails for ordinary renewals: two good ones leave the first one's
      chain as a backup; when the hook then fails for the third, the rollback serves the
      second certificate with the first one's chain, whatever was in the directory before. */
  lemma RollbackMixesRenewals(servingDir: string, files: Files, k: string, ts: seq<TickInput>, a: Bundle, b: Bundle, c: Bundle, host: string)
    requires |ts| == 3 && Renews(ts[0], k, a, host) && Renews(ts[1], k, b, host) && Renews(ts[2], k, c, host)
    requires !ts[0].hookFails && !ts[1].hookFails && ts[2].hookFails && ChainReused(a, b, c)
    requires Path(LineageDir(servingDir, k), BACKUP_SUFFIX) !in files
    ensures var cfg, dir := Certs(servingDir), LineageDir(servingDir, k);
            var served, failed := RunTicks(cfg, files, ts[..2]), RunTicks(cfg, files, ts);
            && Lookup(served, Path(dir, CERT_FILE)) == Some(b.certPEM) && Lookup(served, Path(dir, CHAIN_FILE)) == Some(b.chainPEM)
            && Lookup(failed, Path(dir, CERT_FILE)) == Some(b.certPEM) && Lookup(failed, Path(dir, CHAIN_FILE)) == Some(a.chainPEM)
  {
    hide After, Renews;
    var cfg, dir := Certs(servingDir), LineageDir(servingDir, k);
    var one := After(cfg, files, ts[0]);
    var two := After(cfg, one, ts[1]);
    RunThree(cfg, files, ts);
    MemberData(a);
    MemberData(b);
    MemberData(c);
    RenewedAt(servingDir, files, ts[0], k, a, host, CERT_FILE);
    RenewedAt(servingDir, files, ts[0], k, a, host, CHAIN_FILE);
    RenewedAt(servingDir, one, ts[1], k, b, host, CERT_FILE);
    RenewedAt(servingDir, one, ts[1], k, b, host, CHAIN_FILE);
    assert WillWrite(two, Path(dir, CERT_FILE), DataOf(c, CERT_FILE));
    RolledBackAt(servingDir, two, ts[2], k, c, host, CERT_FILE);
    RolledBackAt(servingDir, two, ts[2], k, c, host, CHAIN_FILE);
  }

  lemma RunThree(cfg: Config, files: Files, ts: seq<TickInput>)
    requires |ts| == 3
    ensures var one := After(cfg, files, ts[0]);
            RunTicks(cfg, files, ts[..2]) == After(cfg, one, ts[1]) && RunTicks(cfg, files, ts) == After(cfg, After(cfg, one, ts[1]), ts[2])
  {
    hide After;
    assert ts[..2][..1] == ts[..1] && ts[..1][..0] == [];
    assert RunTicks(cfg, files, []) == files;
    assert RunTicks(cfg, files, ts[..1]) == After(cfg, files, ts[0]);
  }

  lemma MemberData(b: Bundle)
    ensures IsMember(CERT_FILE) && DataOf(b, CERT_FILE) == b.certPEM && IsMember(CHAIN_FILE) && DataOf(b, CHAIN_FILE) == b.chainPEM
  {
    assert CERT_FILE[1] != CHAIN_FILE[1] && KEY_FILE[1] != CHAIN_FILE[1];
  }
}
