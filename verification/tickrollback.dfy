/** Rolled-back ticks: exact for blobs over whole runs, exact for certificates when no
    backups were left behind. */
module TickRollback {
  import opened Versions
  import opened AtomicFile
  import opened Bundles
  import opened Providers
  import opened Engine
  import opened TickLaws

  /** An existing destination can be read. */
  predicate Readable(faults: map<Path, Fault>) {
    forall p :: p in faults ==> !faults[p].Unreadable?
  }

  /** One tick's inputs. */
  datatype TickInput = TickInput(
    records: map<string, Record>,
    locals: map<string, Record>,
    env: Env,
    keys: seq<string>,
    failing: set<string>,
    hookFails: bool)

  predicate WellFormed(t: TickInput) {
    Keyed(t.records) && Keyed(t.locals) && NoDups(t.keys) && Readable(t.env.faults)
  }

  function Visited(cfg: Config, files: Files, t: TickInput): TickState {
    VisitAll(cfg, t.locals, t.env, TickState(t.records, files, []), t.keys)
  }

  predicate Fails(cfg: Config, files: Files, t: TickInput) {
    var changed := Visited(cfg, files, t).changed;
    changed != [] && !FlushOk(cfg, changed, t.failing, t.hookFails)
  }

  function After(cfg: Config, files: Files, t: TickInput): Files {
    TickDone(cfg, t.locals, t.env, TickState(t.records, files, []), t.keys, t.failing, t.hookFails).files
  }

  function RunTicks(cfg: Config, files: Files, ticks: seq<TickInput>): Files {
    if ticks == [] then files
    else After(cfg, RunTicks(cfg, files, ticks[..|ticks| - 1]), ticks[|ticks| - 1])
  }

  /** A key visited alone. */
  function Alone(cfg: Config, files: Files, t: TickInput, k: string): TickState {
    VisitKey(cfg, t.locals, t.env, TickState(t.records, files, []), k)
  }

  /** What a blob's own visit does to its destination and backup. */
  lemma BlobAlone(dests: map<string, Path>, files: Files, t: TickInput, k: string)
    requires WellFormed(t) && k in dests
    ensures var one, d := Alone(Blob(dests), files, t, k), dests[k];
            && (k !in one.changed ==> Lookup(one.files, d) == Lookup(files, d))
            && (k in one.changed ==> d in one.files && (if d in files then Lookup(one.files, BackupOf(d)) == Some(files[d])
                                                        else Lookup(one.files, BackupOf(d)) == Lookup(files, BackupOf(d))))
            && (k in one.changed ==> one.changed == [k])
  {
    var cfg, d := Blob(dests), dests[k];
    var best := Best(t.locals, t.records, t.env, k);
    BackupOfInjective(d, d);
    if best.Some? {
      BestKeyed(t.locals, t.records, t.env, k);
      SingleWrite(files, d, BlobOf(best.value, "data"), t.env.faults);
      assert Writes(cfg, best.value) == [(d, BlobOf(best.value, "data"))];
    }
  }

  /** The area of a blob key after the tick's visits, and after its rollback. */
  lemma BlobArea(dests: map<string, Path>, files: Files, t: TickInput, k: string)
    requires Separate(Blob(dests)) && WellFormed(t) && k in dests
    ensures var all := Visited(Blob(dests), files, t);
            if k in t.keys
            then SameArea(Blob(dests), k, all.files, Alone(Blob(dests), files, t, k).files)
                 && (k in all.changed <==> k in Alone(Blob(dests), files, t, k).changed)
            else SameArea(Blob(dests), k, all.files, files) && k !in all.changed
  {
    var ts := TickState(t.records, files, []);
    if k in t.keys {
      VisitAllAt(Blob(dests), t.locals, t.env, ts, t.keys, k);
    } else {
      VisitAllOther(Blob(dests), t.locals, t.env, ts, t.keys, k);
    }
  }

  /** The destination after the changed keys have been rolled back. */
  lemma BlobUndone(dests: map<string, Path>, all: TickState, k: string)
    requires Separate(Blob(dests)) && k in dests && NoDups(all.changed)
    ensures var out, d := RollbackAll(Blob(dests), all.files, all.changed), dests[k];
            Lookup(out, d) == if k in all.changed && BackupOf(d) in all.files then Some(all.files[BackupOf(d)]) else Lookup(all.files, d)
  {
    var cfg, d := Blob(dests), dests[k];
    assert InArea(cfg, k, d);
    if k in all.changed {
      RollbackAllAt(cfg, all.files, all.changed, k);
      BackupOfInjective(d, d);
    } else {
      RollbackAllOther(cfg, all.files, all.changed, d);
    }
  }

  /** What the tick's inputs say about writing k: there is a winning record and its
      replace does not fail. */
  predicate WillApply(dests: map<string, Path>, t: TickInput, k: string)
    requires k in dests
  {
    && k in t.keys && Best(t.locals, t.records, t.env, k).Some?
    && !FaultAt(t.env.faults, dests[k]).ReplaceFails?
  }

  /** A destination that is not there is created exactly by a tick that will apply it. */
  lemma BlobCreated(dests: map<string, Path>, files: Files, t: TickInput, k: string)
    requires Separate(Blob(dests)) && WellFormed(t) && k in dests && dests[k] !in files
    ensures k in Visited(Blob(dests), files, t).changed <==> WillApply(dests, t, k)
  {
    BlobArea(dests, files, t, k);
    if k in t.keys && Best(t.locals, t.records, t.env, k).Some? {
      var best := Best(t.locals, t.records, t.env, k).value;
      BestKeyed(t.locals, t.records, t.env, k);
      SingleWrite(files, dests[k], BlobOf(best, "data"), t.env.faults);
    }
  }

  /** A failed blob tick, exactly: a destination is back at its pre-tick state if and
      only if it existed or the tick has nothing to write there or fails to. Leftover
      backups and failed backup copies make no difference. */
  lemma FailedBlobTickIff(dests: map<string, Path>, files: Files, t: TickInput, k: string)
    requires Separate(Blob(dests)) && WellFormed(t) && k in dests && Fails(Blob(dests), files, t)
    ensures Lookup(After(Blob(dests), files, t), dests[k]) == Lookup(files, dests[k])
            <==> dests[k] in files || !WillApply(dests, t, k)
  {
    var cfg, d := Blob(dests), dests[k];
    var all := Visited(cfg, files, t);
    ChangedAreVisited(cfg, t.locals, t.env, TickState(t.records, files, []), t.keys);
    BlobUndone(dests, all, k);
    BlobArea(dests, files, t, k);
    BlobAlone(dests, files, t, k);
    if d !in files { BlobCreated(dests, files, t, k); }
    assert InArea(cfg, k, d) && InArea(cfg, k, BackupOf(d));
    if k in t.keys {
      var one := Alone(cfg, files, t, k);
      assert Lookup(all.files, d) == Lookup(one.files, d) && Lookup(all.files, BackupOf(d)) == Lookup(one.files, BackupOf(d));
    }
  }

  /** Over whole runs: after any ticks, each failed one leaves every destination that
      existed when it began with the contents it had then. */
  lemma BlobRollbackExact(dests: map<string, Path>, files: Files, ticks: seq<TickInput>, i: nat, k: string)
    requires Separate(Blob(dests)) && (forall j :: 0 <= j < |ticks| ==> WellFormed(ticks[j]))
    requires i < |ticks| && k in dests
    requires var cfg := Blob(dests);
             dests[k] in RunTicks(cfg, files, ticks[..i]) && Fails(cfg, RunTicks(cfg, files, ticks[..i]), ticks[i])
    ensures var cfg := Blob(dests);
            Lookup(RunTicks(cfg, files, ticks[..i + 1]), dests[k]) == Lookup(RunTicks(cfg, files, ticks[..i]), dests[k])
  {
    assert ticks[..i + 1][..i] == ticks[..i];
    FailedBlobTickIff(dests, RunTicks(Blob(dests), files, ticks[..i]), ticks[i], k);
  }

  /** Every destination is there. */
  predicate AllThere(dests: map<string, Path>, files: Files) {
    forall k :: k in dests ==> dests[k] in files
  }

  /** The served contents agree. */
  predicate SameServed(dests: map<string, Path>, a: Files, b: Files) {
    forall k :: k in dests ==> Lookup(a, dests[k]) == Lookup(b, dests[k])
  }

  lemma AloneServed(dests: map<string, Path>, a: Files, b: Files, t: TickInput, k: string)
    requires WellFormed(t) && k in dests && dests[k] in a && Lookup(a, dests[k]) == Lookup(b, dests[k])
    ensures var x, y := Alone(Blob(dests), a, t, k), Alone(Blob(dests), b, t, k);
            Lookup(x.files, dests[k]) == Lookup(y.files, dests[k]) && (k in x.changed <==> k in y.changed) && dests[k] in x.files
  {
    var cfg, d := Blob(dests), dests[k];
    var best := Best(t.locals, t.records, t.env, k);
    BackupOfInjective(d, d);
    if best.Some? {
      BestKeyed(t.locals, t.records, t.env, k);
      SingleWrite(a, d, BlobOf(best.value, "data"), t.env.faults);
      SingleWrite(b, d, BlobOf(best.value, "data"), t.env.faults);
      assert Writes(cfg, best.value) == [(d, BlobOf(best.value, "data"))];
    }
  }

  /** The visits of a tick, seen through the served contents only. */
  lemma VisitedServed(dests: map<string, Path>, a: Files, b: Files, t: TickInput)
    requires Separate(Blob(dests)) && WellFormed(t) && AllThere(dests, a) && SameServed(dests, a, b)
    ensures var x, y := Visited(Blob(dests), a, t), Visited(Blob(dests), b, t);
            SameServed(dests, x.files, y.files) && AllThere(dests, x.files) && forall k :: k in dests ==> (k in x.changed <==> k in y.changed)
  {
    var cfg := Blob(dests);
    var x, y := Visited(cfg, a, t), Visited(cfg, b, t);
    forall k | k in dests ensures Lookup(x.files, dests[k]) == Lookup(y.files, dests[k]) && (k in x.changed <==> k in y.changed) && dests[k] in x.files {
      BlobArea(dests, a, t, k);
      BlobArea(dests, b, t, k);
      AloneServed(dests, a, b, t, k);
      assert InArea(cfg, k, dests[k]);
    }
  }

  lemma ChangedConfigured(dests: map<string, Path>, files: Files, t: TickInput)
    requires Separate(Blob(dests)) && WellFormed(t)
    ensures var changed := Visited(Blob(dests), files, t).changed; forall k :: k in changed ==> k in dests
  {
    var cfg, ts := Blob(dests), TickState(t.records, files, []);
    ChangedAreVisited(cfg, t.locals, t.env, ts, t.keys);
    forall k | k in Visited(cfg, files, t).changed ensures k in dests {
      VisitAllAt(cfg, t.locals, t.env, ts, t.keys, k);
      if k !in dests {
        var best := Best(t.locals, t.records, t.env, k);
        if best.Some? { BestKeyed(t.locals, t.records, t.env, k); }
      }
    }
  }

  lemma FailsServed(dests: map<string, Path>, a: Files, b: Files, t: TickInput)
    requires Separate(Blob(dests)) && WellFormed(t) && AllThere(dests, a) && SameServed(dests, a, b)
    ensures Fails(Blob(dests), a, t) <==> Fails(Blob(dests), b, t)
  {
    VisitedServed(dests, a, b, t);
    ChangedConfigured(dests, a, t);
    ChangedConfigured(dests, b, t);
    var x, y := Visited(Blob(dests), a, t).changed, Visited(Blob(dests), b, t).changed;
    assert Elements(x) == Elements(y);
    ElementsEmpty(x);
    ElementsEmpty(y);
  }

  lemma AfterServed(dests: map<string, Path>, a: Files, b: Files, t: TickInput)
    requires Separate(Blob(dests)) && WellFormed(t) && AllThere(dests, a) && SameServed(dests, a, b)
    ensures AllThere(dests, After(Blob(dests), a, t))
    ensures Fails(Blob(dests), a, t) ==> SameServed(dests, After(Blob(dests), a, t), a)
    ensures !Fails(Blob(dests), a, t) ==> SameServed(dests, After(Blob(dests), a, t), After(Blob(dests), b, t))
  {
    FailsServed(dests, a, b, t);
    VisitedServed(dests, a, b, t);
    if Fails(Blob(dests), a, t) {
      forall k | k in dests ensures Lookup(After(Blob(dests), a, t), dests[k]) == Lookup(a, dests[k]) {
        FailedBlobTickIff(dests, a, t, k);
      }
    }
  }

  /** The ticks of a run that did not fail. */
  function Kept(cfg: Config, files: Files, ticks: seq<TickInput>): seq<TickInput> {
    if ticks == [] then []
    else
      var front := ticks[..|ticks| - 1];
      if Fails(cfg, RunTicks(cfg, files, front), ticks[|ticks| - 1]) then Kept(cfg, files, front)
      else Kept(cfg, files, front) + [ticks[|ticks| - 1]]
  }

  /** Last known good: once every destination exists, the served contents after any run
      are those of the same run without its failed ticks. */
  lemma {:induction false} FailedTicksLeaveNoTrace(dests: map<string, Path>, files: Files, ticks: seq<TickInput>)
    requires Separate(Blob(dests)) && AllThere(dests, files) && forall j :: 0 <= j < |ticks| ==> WellFormed(ticks[j])
    ensures var cfg := Blob(dests);
            AllThere(dests, RunTicks(cfg, files, ticks)) &&
            SameServed(dests, RunTicks(cfg, files, ticks), RunTicks(cfg, files, Kept(cfg, files, ticks)))
  {
    if ticks != [] {
      var cfg, front, last := Blob(dests), ticks[..|ticks| - 1], ticks[|ticks| - 1];
      FailedTicksLeaveNoTrace(dests, files, front);
      var a, kept := RunTicks(cfg, files, front), Kept(cfg, files, front);
      AfterServed(dests, a, RunTicks(cfg, files, kept), last);
      assert (kept + [last])[..|kept|] == kept;
    }
  }

  /** No destination has a backup beside it. */
  predicate NoBackups(dests: map<string, Path>, files: Files) {
    forall k :: k in dests ==> BackupOf(dests[k]) !in files
  }

  /** What a failing tick leaves in the area of a destination that was there without backup. */
  lemma FailedBlobArea(dests: map<string, Path>, files: Files, t: TickInput, k: string)
    requires Separate(Blob(dests)) && WellFormed(t) && t.env.faults == map[] && k in dests && dests[k] in files && BackupOf(dests[k]) !in files
    ensures var all := Visited(Blob(dests), files, t);
            SameArea(Blob(dests), k, RollbackAll(Blob(dests), all.files, all.changed), files)
  {
    hide Separate, VisitAll, RollbackAll;
    var cfg, d := Blob(dests), dests[k];
    var all := Visited(cfg, files, t);
    ChangedAreVisited(cfg, t.locals, t.env, TickState(t.records, files, []), t.keys);
    BlobArea(dests, files, t, k);
    BackupOfInjective(d, d);
    if k in all.changed {
      BlobAlone(dests, files, t, k);
      RollbackAllAt(cfg, all.files, all.changed, k);
      RollbackSame(cfg, all.files, Alone(cfg, files, t, k).files, k);
    } else {
      forall q | InArea(cfg, k, q) ensures Lookup(RollbackAll(cfg, all.files, all.changed), q) == Lookup(all.files, q) {
        forall j | j in all.changed ensures !InArea(cfg, j, q) {
          AreasApart(cfg, j, k, q);
        }
        RollbackAllOther(cfg, all.files, all.changed, q);
      }
      if k in t.keys { UnchangedAlone(dests, files, t, k); }
    }
  }

  /** A visit without faults that reports no change makes none. */
  lemma UnchangedAlone(dests: map<string, Path>, files: Files, t: TickInput, k: string)
    requires WellFormed(t) && t.env.faults == map[] && k in dests && k !in Alone(Blob(dests), files, t, k).changed
    ensures Alone(Blob(dests), files, t, k).files == files
  {
    var best := Best(t.locals, t.records, t.env, k);
    if best.Some? {
      BestKeyed(t.locals, t.records, t.env, k);
      SingleWrite(files, dests[k], BlobOf(best.value, "data"), t.env.faults);
    }
  }

  /** A failing blob tick without write faults, over destinations that exist and have no
      backups, changes no file at all: the backups it makes are moved back. */
  lemma FailingBlobTick(dests: map<string, Path>, files: Files, t: TickInput)
    requires Separate(Blob(dests)) && WellFormed(t) && t.env.faults == map[] && AllThere(dests, files) && NoBackups(dests, files)
    requires Fails(Blob(dests), files, t)
    ensures After(Blob(dests), files, t) == files
  {
    hide Separate, VisitAll, RollbackAll;
    var cfg, ts := Blob(dests), TickState(t.records, files, []);
    var all := Visited(cfg, files, t);
    var out := RollbackAll(cfg, all.files, all.changed);
    forall q ensures Lookup(out, q) == Lookup(files, q) {
      if k :| k in dests && InArea(cfg, k, q) {
        FailedBlobArea(dests, files, t, k);
      } else {
        RollbackAllOther(cfg, all.files, all.changed, q);
        VisitAllOutside(cfg, t.locals, t.env, ts, t.keys, q);
      }
    }
    SameLookups(out, files);
  }

  /** An apply that fails half-way is not reported as a change, so even a failing tick
      leaves its lineage as the failed write left it: nothing is rolled back there. */
  lemma FailedApplyStays(servingDir: string, files: Files, t: TickInput, k: string)
    requires Keyed(t.records) && Keyed(t.locals) && NoDups(t.keys) && k in t.keys
    requires Best(t.locals, t.records, t.env, k).Some?
    requires !WriteAll(files, Writes(Certs(servingDir), Best(t.locals, t.records, t.env, k).value), t.env.faults).ok
    ensures var cfg := Certs(servingDir);
            SameArea(cfg, k, After(cfg, files, t), WriteAll(files, Writes(cfg, Best(t.locals, t.records, t.env, k).value), t.env.faults).files)
  {
    hide VisitAll, RollbackAll, WriteAll, Writes, Best;
    var cfg := Certs(servingDir);
    var ts := TickState(t.records, files, []);
    var all := VisitAll(cfg, t.locals, t.env, ts, t.keys);
    LineagesSeparate(servingDir);
    VisitAllAt(cfg, t.locals, t.env, ts, t.keys, k);
    ChangedAreVisited(cfg, t.locals, t.env, ts, t.keys);
    assert k !in all.changed;
    forall q | InArea(cfg, k, q) ensures Lookup(RollbackAll(cfg, all.files, all.changed), q) == Lookup(all.files, q) {
      RollbackAllOther(cfg, all.files, all.changed, q);
    }
  }

  /** The directory holds no backups. */
  ghost predicate Clean(files: Files, dir: string) {
    forall q :: q in files && q.dir == dir ==> !IsBackup(q.name)
  }

  /** Every file the bundle would write is already there. */
  ghost predicate Existing(files: Files, b: Bundle, dir: string) {
    forall name :: IsMember(name) && DataOf(b, name) != "" ==> Path(dir, name) in files
  }

  lemma {:induction false} NoChangeNoTrace(files: Files, ws: seq<(Path, Bytes)>)
    requires !WriteAll(files, ws, map[]).changed
    ensures WriteAll(files, ws, map[]).files == files
  {
    if ws != [] {
      NoFaultsOk(files, ws[..|ws| - 1]);
      NoChangeNoTrace(files, ws[..|ws| - 1]);
    }
  }

  /** Files that are neither members nor members' backups are not written. */
  lemma BundleElsewhere(files: Files, b: Bundle, dir: string, q: Path)
    requires q.dir == dir ==> !IsMember(q.name) && !(IsBackup(q.name) && IsMember(Trimmed(q.name)))
    ensures Lookup(BundleWritten(files, b, dir), q) == Lookup(files, q)
  {
    var ws := Wanted(Members(b), dir);
    BundleWrites(b, dir);
    forall i | 0 <= i < |ws| ensures q != ws[i].0 && q != BackupOf(ws[i].0) {
      assert ws[i] in ws;
      BackupNameTrims(ws[i].0.name);
    }
    WriteAllElsewhere(files, ws, map[], q);
  }

  /** Writing into a clean directory over existing files and rolling back is the identity. */
  lemma CleanUndoneAt(files: Files, b: Bundle, dir: string, q: Path)
    requires Clean(files, dir) && Existing(files, b, dir) && q.dir == dir
    ensures Lookup(RestoredDir(BundleWritten(files, b, dir), dir), q) == Lookup(files, q)
  {
    var out := BundleWritten(files, b, dir);
    assert IsBackup(BACKUP_SUFFIX);
    assert Path(dir, BACKUP_SUFFIX) !in files;
    EmptyStemKept(files, b, dir);
    BackupNameTrims(q.name);
    if IsMember(q.name) {
      UndoneAt(files, b, dir, q.name);
      assert BackupOf(q) !in files;
    } else {
      BundleElsewhere(files, b, dir, BackupOf(q));
      assert BackupOf(q) !in files && BackupOf(q) !in out;
      if IsBackup(q.name) {
        assert q !in files;
        assert q in out ==> q.name in NamesIn(out, dir);
      } else {
        BundleElsewhere(files, b, dir, q);
      }
    }
  }

  /** The tick meets only clean lineage directories with every written file in place. */
  ghost predicate Prepared(servingDir: string, files: Files, t: TickInput) {
    forall k :: k in t.keys && Best(t.locals, t.records, t.env, k).Some? ==>
      var dir := LineageDir(servingDir, k);
      Clean(files, dir) && Existing(files, FromRecord(Best(t.locals, t.records, t.env, k).value), dir)
  }

  lemma CertAlone(servingDir: string, files: Files, t: TickInput, k: string)
    requires WellFormed(t) && t.env.faults == map[] && Prepared(servingDir, files, t) && k in t.keys
    ensures var cfg := Certs(servingDir); var one := Alone(cfg, files, t, k);
            if k in one.changed then SameArea(cfg, k, RollbackKey(cfg, one.files, k), files) else SameArea(cfg, k, one.files, files)
  {
    var cfg, dir := Certs(servingDir), LineageDir(servingDir, k);
    var best := Best(t.locals, t.records, t.env, k);
    if best.Some? {
      BestKeyed(t.locals, t.records, t.env, k);
      var b := FromRecord(best.value);
      var ws := Wanted(Members(b), dir);
      assert Writes(cfg, best.value) == ws;
      NoFaultsOk(files, ws);
      if WriteAll(files, ws, map[]).changed {
        forall q | InArea(cfg, k, q) ensures Lookup(RestoredDir(BundleWritten(files, b, dir), dir), q) == Lookup(files, q) {
          CleanUndoneAt(files, b, dir, q);
        }
      } else {
        NoChangeNoTrace(files, ws);
      }
    }
  }

  lemma CertArea(servingDir: string, files: Files, t: TickInput, k: string)
    requires WellFormed(t) && t.env.faults == map[] && Prepared(servingDir, files, t) && k in t.keys && NoDups(Visited(Certs(servingDir), files, t).changed)
    ensures var cfg := Certs(servingDir); var all := Visited(cfg, files, t);
            SameArea(cfg, k, RollbackAll(cfg, all.files, all.changed), files)
  {
    var cfg := Certs(servingDir);
    var all, one := Visited(cfg, files, t), Alone(cfg, files, t, k);
    LineagesSeparate(servingDir);
    VisitAllAt(cfg, t.locals, t.env, TickState(t.records, files, []), t.keys, k);
    CertAlone(servingDir, files, t, k);
    if k in all.changed {
      RollbackAllAt(cfg, all.files, all.changed, k);
      RollbackSame(cfg, all.files, one.files, k);
    } else {
      forall q | InArea(cfg, k, q) ensures Lookup(RollbackAll(cfg, all.files, all.changed), q) == Lookup(files, q) {
        RollbackAllOther(cfg, all.files, all.changed, q);
      }
    }
  }

  /** One failing certificate tick over any number of lineages changes no file at all. */
  lemma FailingCertTick(servingDir: string, files: Files, t: TickInput)
    requires WellFormed(t) && t.env.faults == map[] && t.hookFails && Prepared(servingDir, files, t)
    ensures After(Certs(servingDir), files, t) == files
  {
    var cfg, ts := Certs(servingDir), TickState(t.records, files, []);
    var all := Visited(cfg, files, t);
    ChangedAreVisited(cfg, t.locals, t.env, ts, t.keys);
    var out := RollbackAll(cfg, all.files, all.changed);
    forall q ensures Lookup(out, q) == Lookup(files, q) {
      if k :| k in t.keys && InArea(cfg, k, q) {
        CertArea(servingDir, files, t, k);
      } else {
        RollbackAllOther(cfg, all.files, all.changed, q);
        VisitAllOutside(cfg, t.locals, t.env, ts, t.keys, q);
      }
    }
    SameLookups(out, files);
  }

  /** Any number of failing certificate ticks, each with any winning bundles, starting
      without backups and with every written file in place, leave the whole file system
      byte for byte as it was, and so free of backups. */
  lemma {:induction false} FailingCertTicks(servingDir: string, files: Files, ticks: seq<TickInput>)
    requires forall j :: 0 <= j < |ticks| ==>
               WellFormed(ticks[j]) && ticks[j].env.faults == map[] && ticks[j].hookFails && Prepared(servingDir, files, ticks[j])
    ensures RunTicks(Certs(servingDir), files, ticks) == files
  {
    if ticks != [] {
      FailingCertTicks(servingDir, files, ticks[..|ticks| - 1]);
      FailingCertTick(servingDir, files, ticks[|ticks| - 1]);
    }
  }
}
