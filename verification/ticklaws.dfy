/** What a tick does to one key does not depend on the others: the tick's result is the
    same for every visiting order. */
module TickLaws {
  import opened Versions
  import opened AtomicFile
  import opened Bundles
  import opened Providers
  import opened Engine

  ghost predicate SameArea(cfg: Config, key: string, a: Files, b: Files) {
    forall q :: InArea(cfg, key, q) ==> Lookup(a, q) == Lookup(b, q)
  }

  /** A write list that stays inside a key's area. */
  ghost predicate Inside(cfg: Config, key: string, ws: seq<(Path, Bytes)>) {
    forall i :: 0 <= i < |ws| ==> InArea(cfg, key, ws[i].0) && InArea(cfg, key, BackupOf(ws[i].0))
  }

  lemma WritesInside(cfg: Config, r: Record)
    ensures Inside(cfg, r.key, Writes(cfg, r))
  {
    if cfg.Certs? {
      var ws := Writes(cfg, r);
      BundleWrites(FromRecord(r), LineageDir(cfg.servingDir, r.key));
      forall i | 0 <= i < |ws| ensures InArea(cfg, r.key, ws[i].0) && InArea(cfg, r.key, BackupOf(ws[i].0)) {
        assert ws[i] in ws;
      }
    }
  }

  lemma InsideTouches(cfg: Config, key: string, ws: seq<(Path, Bytes)>, q: Path)
    requires Inside(cfg, key, ws) && !InArea(cfg, key, q)
    ensures !Touches(ws, q)
  {
  }

  /** A single write, seen from its own file and backup, ignores the rest. */
  lemma WriteSame(cfg: Config, key: string, a: Files, b: Files, p: Path, data: Bytes, fault: Fault)
    requires SameArea(cfg, key, a, b) && InArea(cfg, key, p) && InArea(cfg, key, BackupOf(p))
    ensures var x, y := Write(a, p, data, fault), Write(b, p, data, fault);
            SameArea(cfg, key, x.files, y.files) && x.changed == y.changed && x.ok == y.ok
  {
    var x, y := Write(a, p, data, fault), Write(b, p, data, fault);
    assert Lookup(a, p) == Lookup(b, p);
    forall q | InArea(cfg, key, q) ensures Lookup(x.files, q) == Lookup(y.files, q) {
      assert Lookup(a, q) == Lookup(b, q);
    }
  }

  lemma {:induction false} WriteAllSame(cfg: Config, key: string, a: Files, b: Files, ws: seq<(Path, Bytes)>, faults: map<Path, Fault>)
    requires SameArea(cfg, key, a, b) && Inside(cfg, key, ws)
    ensures var x, y := WriteAll(a, ws, faults), WriteAll(b, ws, faults);
            SameArea(cfg, key, x.files, y.files) && x.changed == y.changed && x.ok == y.ok
  {
    if ws != [] {
      var front, last := ws[..|ws| - 1], ws[|ws| - 1];
      assert forall i :: 0 <= i < |front| ==> front[i] == ws[i];
      WriteAllSame(cfg, key, a, b, front, faults);
      WriteSame(cfg, key, WriteAll(a, front, faults).files, WriteAll(b, front, faults).files, last.0, last.1, FaultAt(faults, last.0));
    }
  }

  /** Visiting a key touches nothing outside its record and its area. */
  lemma VisitElsewhere(cfg: Config, locals: map<string, Record>, env: Env, ts: TickState, key: string, k: string, q: Path)
    requires Keyed(locals) && Keyed(ts.records)
    ensures k != key ==> Lookup(VisitKey(cfg, locals, env, ts, key).records, k) == Lookup(ts.records, k)
    ensures !InArea(cfg, key, q) ==> Lookup(VisitKey(cfg, locals, env, ts, key).files, q) == Lookup(ts.files, q)
  {
    var best := Best(locals, ts.records, env, key);
    if best.Some? && !InArea(cfg, key, q) {
      BestKeyed(locals, ts.records, env, key);
      WritesInside(cfg, best.value);
      InsideTouches(cfg, key, Writes(cfg, best.value), q);
      WriteAllElsewhere(ts.files, Writes(cfg, best.value), env.faults, q);
    }
  }

  /** Two states look the same to a key: same record, same files in its area. */
  ghost predicate Alike(cfg: Config, k: string, a: TickState, b: TickState) {
    Lookup(a.records, k) == Lookup(b.records, k) && SameArea(cfg, k, a.files, b.files)
  }

  lemma VisitOther(cfg: Config, locals: map<string, Record>, env: Env, ts: TickState, key: string, k: string)
    requires Separate(cfg) && Keyed(locals) && Keyed(ts.records) && k != key
    ensures Alike(cfg, k, VisitKey(cfg, locals, env, ts, key), ts)
    ensures k in VisitKey(cfg, locals, env, ts, key).changed <==> k in ts.changed
  {
    var out := VisitKey(cfg, locals, env, ts, key);
    forall q | InArea(cfg, k, q) ensures Lookup(out.files, q) == Lookup(ts.files, q) {
      assert !InArea(cfg, key, q);
      VisitElsewhere(cfg, locals, env, ts, key, k, q);
    }
    VisitElsewhere(cfg, locals, env, ts, key, k, Path("", ""));
  }

  lemma VisitSame(cfg: Config, locals: map<string, Record>, env: Env, a: TickState, b: TickState, k: string)
    requires Keyed(locals) && Keyed(a.records) && Keyed(b.records) && Alike(cfg, k, a, b) && k !in a.changed && k !in b.changed
    ensures Alike(cfg, k, VisitKey(cfg, locals, env, a, k), VisitKey(cfg, locals, env, b, k))
    ensures k in VisitKey(cfg, locals, env, a, k).changed <==> k in VisitKey(cfg, locals, env, b, k).changed
  {
    hide WriteAll, Writes;
    var best := Best(locals, a.records, env, k);
    assert best == Best(locals, b.records, env, k);
    if best.Some? {
      BestKeyed(locals, a.records, env, k);
      WritesInside(cfg, best.value);
      WriteAllSame(cfg, k, a.files, b.files, Writes(cfg, best.value), env.faults);
    }
  }

  /** A key that is not visited is not affected. */
  lemma {:induction false} VisitAllOther(cfg: Config, locals: map<string, Record>, env: Env, ts: TickState, keys: seq<string>, k: string)
    requires Separate(cfg) && Keyed(locals) && Keyed(ts.records) && k !in keys
    ensures var all := VisitAll(cfg, locals, env, ts, keys); Alike(cfg, k, all, ts) && (k in all.changed <==> k in ts.changed)
  {
    if keys != [] {
      var front := keys[..|keys| - 1];
      VisitAllOther(cfg, locals, env, ts, front, k);
      VisitAllKeyed(cfg, locals, env, ts, front);
      VisitOther(cfg, locals, env, VisitAll(cfg, locals, env, ts, front), keys[|keys| - 1], k);
    }
  }

  /** A visited key ends as if it had been visited alone, first. */
  lemma {:induction false} VisitAllAt(cfg: Config, locals: map<string, Record>, env: Env, ts: TickState, keys: seq<string>, k: string)
    requires Separate(cfg) && Keyed(locals) && Keyed(ts.records) && NoDups(keys) && k in keys && k !in ts.changed
    ensures var all, one := VisitAll(cfg, locals, env, ts, keys), VisitKey(cfg, locals, env, ts, k);
            Alike(cfg, k, all, one) && (k in all.changed <==> k in one.changed)
  {
    var front, last := keys[..|keys| - 1], keys[|keys| - 1];
    var before := VisitAll(cfg, locals, env, ts, front);
    VisitAllKeyed(cfg, locals, env, ts, front);
    if k == last {
      assert k !in front;
      VisitAllOther(cfg, locals, env, ts, front, k);
      VisitSame(cfg, locals, env, before, ts, k);
    } else {
      VisitAllAt(cfg, locals, env, ts, front, k);
      VisitOther(cfg, locals, env, before, last, k);
    }
  }

  lemma {:induction false} VisitAllOutside(cfg: Config, locals: map<string, Record>, env: Env, ts: TickState, keys: seq<string>, q: Path)
    requires Keyed(locals) && Keyed(ts.records) && forall k :: k in keys ==> !InArea(cfg, k, q)
    ensures Lookup(VisitAll(cfg, locals, env, ts, keys).files, q) == Lookup(ts.files, q)
  {
    if keys != [] {
      var front := keys[..|keys| - 1];
      VisitAllOutside(cfg, locals, env, ts, front, q);
      VisitAllKeyed(cfg, locals, env, ts, front);
      VisitElsewhere(cfg, locals, env, VisitAll(cfg, locals, env, ts, front), keys[|keys| - 1], "", q);
    }
  }

  /** Rolling back one key stays inside its area and looks only there. */
  lemma RollbackElsewhere(cfg: Config, files: Files, key: string, q: Path)
    requires !InArea(cfg, key, q)
    ensures Lookup(RollbackKey(cfg, files, key), q) == Lookup(files, q)
  {
  }

  lemma RollbackSame(cfg: Config, a: Files, b: Files, key: string)
    requires SameArea(cfg, key, a, b)
    ensures SameArea(cfg, key, RollbackKey(cfg, a, key), RollbackKey(cfg, b, key))
  {
    match cfg
    case Blob(dests) =>
      if key in dests {
        assert Lookup(a, BackupOf(dests[key])) == Lookup(b, BackupOf(dests[key]));
        assert Lookup(a, dests[key]) == Lookup(b, dests[key]);
        BackupOfInjective(dests[key], dests[key]);
      }
    case Certs(servingDir) =>
      var dir := LineageDir(servingDir, key);
      RestoredDirSame(a, b, dir);
  }

  lemma RestoredDirSame(a: Files, b: Files, dir: string)
    requires forall q: Path :: q.dir == dir ==> Lookup(a, q) == Lookup(b, q)
    ensures forall q: Path :: q.dir == dir ==> Lookup(RestoredDir(a, dir), q) == Lookup(RestoredDir(b, dir), q)
  {
    assert forall name :: Lookup(a, Path(dir, name)) == Lookup(b, Path(dir, name));
    forall name ensures name in NamesIn(a, dir) <==> name in NamesIn(b, dir) {
      assert name in NamesIn(a, dir) <==> Path(dir, name) in a;
      assert name in NamesIn(b, dir) <==> Path(dir, name) in b;
    }
    assert NamesIn(a, dir) == NamesIn(b, dir);
    assert Reached(a, dir) == Reached(b, dir);
    forall q: Path | q.dir == dir ensures Lookup(RestoredDir(a, dir), q) == Lookup(RestoredDir(b, dir), q) {
      assert Lookup(a, q) == Lookup(b, q) && Lookup(a, BackupOf(q)) == Lookup(b, BackupOf(q));
    }
  }

  lemma {:induction false} RollbackAllOther(cfg: Config, files: Files, keys: seq<string>, q: Path)
    requires forall k :: k in keys ==> !InArea(cfg, k, q)
    ensures Lookup(RollbackAll(cfg, files, keys), q) == Lookup(files, q)
  {
    if keys != [] {
      var front := keys[..|keys| - 1];
      RollbackAllOther(cfg, files, front, q);
      RollbackElsewhere(cfg, RollbackAll(cfg, files, front), keys[|keys| - 1], q);
    }
  }

  lemma {:induction false} RollbackAllAt(cfg: Config, files: Files, keys: seq<string>, k: string)
    requires Separate(cfg) && NoDups(keys) && k in keys
    ensures SameArea(cfg, k, RollbackAll(cfg, files, keys), RollbackKey(cfg, files, k))
  {
    var front, last := keys[..|keys| - 1], keys[|keys| - 1];
    var before := RollbackAll(cfg, files, front);
    if k == last {
      assert k !in front;
      forall q | InArea(cfg, k, q) ensures Lookup(before, q) == Lookup(files, q) {
        RollbackAllOther(cfg, files, front, q);
      }
      RollbackSame(cfg, before, files, k);
    } else {
      RollbackAllAt(cfg, files, front, k);
      forall q | InArea(cfg, k, q) ensures Lookup(RollbackAll(cfg, files, keys), q) == Lookup(RollbackKey(cfg, files, k), q) {
        RollbackElsewhere(cfg, before, last, q);
      }
    }
  }

  /** Undoing one key stays inside its area and looks only there, whatever fails in it. */
  lemma UndoElsewhere(cfg: Config, files: Files, key: string, u: UndoFaults, q: Path)
    requires !InArea(cfg, key, q)
    ensures Lookup(UndoKey(cfg, files, key, u), q) == Lookup(files, q)
  {
  }

  lemma {:induction false} UndoAllOther(cfg: Config, files: Files, keys: seq<string>, u: UndoFaults, q: Path)
    requires forall k :: k in keys ==> !InArea(cfg, k, q)
    ensures Lookup(UndoAll(cfg, files, keys, u), q) == Lookup(files, q)
  {
    if keys != [] {
      hide UndoKey;
      var front := keys[..|keys| - 1];
      UndoAllOther(cfg, files, front, u, q);
      UndoElsewhere(cfg, UndoAll(cfg, files, front, u), keys[|keys| - 1], u, q);
    }
  }

  /** Nothing fails in the undoing of k. */
  predicate UndoWorks(u: UndoFaults, k: string) {
    k !in u.keys && StuckIn(u, k) == {}
  }

  /** A key whose undoing works is rolled back, and one that cannot be restored at all stays
      as it is. */
  lemma UndoKeyIs(cfg: Config, files: Files, k: string, u: UndoFaults)
    ensures UndoWorks(u, k) ==> UndoKey(cfg, files, k, u) == RollbackKey(cfg, files, k)
    ensures k in u.keys ==> UndoKey(cfg, files, k, u) == files
  {
    if cfg.Certs? {
      NothingStuck(files, LineageDir(cfg.servingDir, k));
    }
  }

  /** Failures stay with their keys: whatever happens to the others, a key whose undoing works
      ends as its rollback alone leaves it, and one that cannot be restored stays as it was. */
  lemma {:induction false} UndoAllAt(cfg: Config, files: Files, keys: seq<string>, k: string, u: UndoFaults)
    requires Separate(cfg) && NoDups(keys) && k in keys
    ensures UndoWorks(u, k) ==> SameArea(cfg, k, UndoAll(cfg, files, keys, u), RollbackKey(cfg, files, k))
    ensures k in u.keys ==> SameArea(cfg, k, UndoAll(cfg, files, keys, u), files)
  {
    hide UndoKey, RollbackKey, Separate, InArea, UndoWorks;
    var front, last := keys[..|keys| - 1], keys[|keys| - 1];
    var before := UndoAll(cfg, files, front, u);
    if k == last {
      assert k !in front;
      forall q | InArea(cfg, k, q) ensures Lookup(before, q) == Lookup(files, q) {
        forall j | j in front ensures !InArea(cfg, j, q) {
          AreasApart(cfg, j, k, q);
        }
        UndoAllOther(cfg, files, front, u, q);
      }
      UndoKeyIs(cfg, before, k, u);
      RollbackSame(cfg, before, files, k);
    } else {
      UndoAllAt(cfg, files, front, k, u);
      forall q | InArea(cfg, k, q) ensures Lookup(UndoAll(cfg, files, keys, u), q) == Lookup(before, q) {
        AreasApart(cfg, last, k, q);
        UndoElsewhere(cfg, before, last, u, q);
      }
    }
  }

  /** The same of a whole failing tick: each changed key whose undoing works ends as its
      rollback leaves it, and each that cannot be restored keeps what the tick wrote. */
  lemma TickUndoneAt(cfg: Config, locals: map<string, Record>, env: Env, ts: TickState, keys: seq<string>, failing: set<string>, hookFails: bool, u: UndoFaults, k: string)
    requires Separate(cfg) && ts.changed == [] && NoDups(keys)
    requires var all := VisitAll(cfg, locals, env, ts, keys); k in all.changed && !FlushOk(cfg, all.changed, failing, hookFails)
    ensures var all, out := VisitAll(cfg, locals, env, ts, keys), TickUndone(cfg, locals, env, ts, keys, failing, hookFails, u);
            && out.records == all.records && out.changed == all.changed
            && (UndoWorks(u, k) ==> SameArea(cfg, k, out.files, RollbackKey(cfg, all.files, k)))
            && (k in u.keys ==> SameArea(cfg, k, out.files, all.files))
  {
    hide VisitAll, UndoAll, Separate, RollbackKey, UndoWorks;
    var all := VisitAll(cfg, locals, env, ts, keys);
    ChangedAreVisited(cfg, locals, env, ts, keys);
    UndoAllAt(cfg, all.files, all.changed, k, u);
  }

  lemma AreasApart(cfg: Config, j: string, k: string, q: Path)
    requires Separate(cfg) && j != k && InArea(cfg, k, q)
    ensures !InArea(cfg, j, q)
  {
  }

  /** The files already have what the record would write. */
  predicate Serves(files: Files, ws: seq<(Path, Bytes)>) {
    forall i :: 0 <= i < |ws| ==> Lookup(files, ws[i].0) == Some(ws[i].1)
  }

  lemma WritesApart(cfg: Config, r: Record)
    ensures Apart(Writes(cfg, r))
  {
    match cfg
    case Blob(_) =>
    case Certs(servingDir) => BundleWrites(FromRecord(r), LineageDir(servingDir, r.key));
  }

  /** An apply without faults leaves exactly what it was asked to write. */
  lemma AppliedServes(files: Files, ws: seq<(Path, Bytes)>, cfg: Config, r: Record)
    requires ws == Writes(cfg, r)
    ensures Serves(WriteAll(files, ws, map[]).files, ws)
  {
    WritesApart(cfg, r);
    forall i | 0 <= i < |ws| ensures Lookup(WriteAll(files, ws, map[]).files, ws[i].0) == Some(ws[i].1) {
      WriteAllAt(files, ws, i);
      BackupOfInjective(ws[i].0, ws[i].0);
    }
  }

  /** A tick serves its winners: over any keys and with any failing reads and puts, after a
      tick without write faults whose hook, if it runs, succeeds, the files hold, for every key visited,
      what the newer of the local and the stored record writes, the stored one on a tie. */
  lemma TickServesWinner(cfg: Config, locals: map<string, Record>, env: Env, ts: TickState, keys: seq<string>, failing: set<string>, hookFails: bool, k: string)
    requires Separate(cfg) && Keyed(locals) && Keyed(ts.records) && ts.changed == [] && NoDups(keys) && k in keys && env.faults == map[]
    requires var changed := VisitAll(cfg, locals, env, ts, keys).changed; changed == [] || FlushOk(cfg, changed, failing, hookFails)
    ensures var best := PickNewer(Lookup(locals, k), if k in env.getFails then None else Lookup(ts.records, k));
            best.Some? ==> Serves(TickDone(cfg, locals, env, ts, keys, failing, hookFails).files, Writes(cfg, best.value))
  {
    hide VisitAll, Separate, WriteAll, Writes, InArea;
    var best := Best(locals, ts.records, env, k);
    if best.Some? {
      var ws := Writes(cfg, best.value);
      BestKeyed(locals, ts.records, env, k);
      VisitAllAt(cfg, locals, env, ts, keys, k);
      AppliedServes(ts.files, ws, cfg, best.value);
      WritesInside(cfg, best.value);
      var one := VisitKey(cfg, locals, env, ts, k);
      assert one.files == WriteAll(ts.files, ws, map[]).files;
    }
  }

  predicate SameElements(a: seq<string>, b: seq<string>) {
    (forall k :: k in a ==> k in b) && (forall k :: k in b ==> k in a)
  }

  lemma VisitAllOrder(cfg: Config, locals: map<string, Record>, env: Env, ts: TickState, keys: seq<string>, keys': seq<string>)
    requires Separate(cfg) && Keyed(locals) && Keyed(ts.records) && ts.changed == []
    requires NoDups(keys) && NoDups(keys') && SameElements(keys, keys')
    ensures var a, b := VisitAll(cfg, locals, env, ts, keys), VisitAll(cfg, locals, env, ts, keys');
            a.records == b.records && a.files == b.files && SameElements(a.changed, b.changed)
  {
    var a, b := VisitAll(cfg, locals, env, ts, keys), VisitAll(cfg, locals, env, ts, keys');
    forall k ensures Lookup(a.records, k) == Lookup(b.records, k) && (k in a.changed <==> k in b.changed) {
      if k in keys {
        VisitAllAt(cfg, locals, env, ts, keys, k);
        VisitAllAt(cfg, locals, env, ts, keys', k);
      } else {
        VisitAllOther(cfg, locals, env, ts, keys, k);
        VisitAllOther(cfg, locals, env, ts, keys', k);
      }
    }
    SameLookups(a.records, b.records);
    forall q ensures Lookup(a.files, q) == Lookup(b.files, q) {
      if k :| k in keys && InArea(cfg, k, q) {
        VisitAllAt(cfg, locals, env, ts, keys, k);
        VisitAllAt(cfg, locals, env, ts, keys', k);
      } else {
        VisitAllOutside(cfg, locals, env, ts, keys, q);
        VisitAllOutside(cfg, locals, env, ts, keys', q);
      }
    }
    SameLookups(a.files, b.files);
  }

  lemma RollbackOrder(cfg: Config, files: Files, keys: seq<string>, keys': seq<string>)
    requires Separate(cfg) && NoDups(keys) && NoDups(keys') && SameElements(keys, keys')
    ensures RollbackAll(cfg, files, keys) == RollbackAll(cfg, files, keys')
  {
    var a, b := RollbackAll(cfg, files, keys), RollbackAll(cfg, files, keys');
    forall q ensures Lookup(a, q) == Lookup(b, q) {
      if k :| k in keys && InArea(cfg, k, q) {
        RollbackAllAt(cfg, files, keys, k);
        RollbackAllAt(cfg, files, keys', k);
      } else {
        RollbackAllOther(cfg, files, keys, q);
        RollbackAllOther(cfg, files, keys', q);
      }
    }
    SameLookups(a, b);
  }

  /** Order independence: for any two orders of the same keys a tick leaves the same
      cluster map and the same files, whatever fails in it and whether or not it is
      rolled back. */
  lemma TickOrderIrrelevant(cfg: Config, locals: map<string, Record>, env: Env, ts: TickState, keys: seq<string>, keys': seq<string>, failing: set<string>, hookFails: bool)
    requires Separate(cfg) && Keyed(locals) && Keyed(ts.records) && ts.changed == []
    requires NoDups(keys) && NoDups(keys') && SameElements(keys, keys')
    ensures var a, b := TickDone(cfg, locals, env, ts, keys, failing, hookFails), TickDone(cfg, locals, env, ts, keys', failing, hookFails);
            a.records == b.records && a.files == b.files && SameElements(a.changed, b.changed)
  {
    hide VisitAll, RollbackAll;
    var a, b := VisitAll(cfg, locals, env, ts, keys), VisitAll(cfg, locals, env, ts, keys');
    VisitAllOrder(cfg, locals, env, ts, keys, keys');
    ChangedAreVisited(cfg, locals, env, ts, keys);
    ChangedAreVisited(cfg, locals, env, ts, keys');
    RollbackOrder(cfg, a.files, a.changed, b.changed);
    assert Elements(a.changed) == Elements(b.changed);
    ElementsEmpty(a.changed);
    ElementsEmpty(b.changed);
  }
}
