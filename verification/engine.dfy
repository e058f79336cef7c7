/** One reconcile tick of one provider against a store that nobody else is writing. */
module Engine {
  import opened Versions
  import opened AtomicFile
  import opened Bundles
  import opened Providers

  /** What fails during a tick: snapshot reads, re-check reads and publishes by key, and
      file writes by path. */
  datatype Env = Env(getFails: set<string>, regetFails: set<string>, putFails: set<string>, faults: map<Path, Fault>)

  const CALM := Env({}, {}, {}, map[])

  /** localByKey: a key read twice keeps the later record. */
  function ByKey(recs: seq<Record>): (m: map<string, Record>)
    ensures Keyed(m)
    ensures forall k :: k in m <==> exists i :: 0 <= i < |recs| && recs[i].key == k
  {
    if recs == [] then map[]
    else
      var front := recs[..|recs| - 1];
      assert forall i :: 0 <= i < |front| ==> recs[i] == front[i];
      ByKey(front)[recs[|recs| - 1].key := recs[|recs| - 1]]
  }

  /** Under each key stands the last record that was read for it, unchanged. */
  lemma {:induction false} ByKeyHoldsLast(recs: seq<Record>, i: nat)
    requires i < |recs| && forall j :: i < j < |recs| ==> recs[j].key != recs[i].key
    ensures Lookup(ByKey(recs), recs[i].key) == Some(recs[i])
  {
    var n := |recs| - 1;
    if i < n {
      assert recs[..n][i] == recs[i] && recs[n].key != recs[i].key;
      ByKeyHoldsLast(recs[..n], i);
    }
  }

  /** So every value of the index is a record that was read, the last one of its key. */
  lemma ByKeyIsRead(recs: seq<Record>, k: string) returns (i: nat)
    requires k in ByKey(recs)
    ensures i < |recs| && recs[i].key == k && ByKey(recs)[k] == recs[i] && forall j :: i < j < |recs| ==> recs[j].key != k
  {
    i := LastOf(recs, k);
    ByKeyHoldsLast(recs, i);
  }

  lemma {:induction false} LastOf(recs: seq<Record>, k: string) returns (i: nat)
    requires exists j :: 0 <= j < |recs| && recs[j].key == k
    ensures i < |recs| && recs[i].key == k && forall j :: i < j < |recs| ==> recs[j].key != k
  {
    var n := |recs| - 1;
    if recs[n].key == k {
      i := n;
    } else {
      var front := recs[..n];
      var j :| 0 <= j < |recs| && recs[j].key == k;
      assert front[j].key == k;
      i := LastOf(front, k);
      forall j | i < j < |recs| ensures recs[j].key != k {
        if j < n { assert recs[j] == front[j]; }
      }
    }
  }

  /** The union of local and listed keys, each once; `locals` or `listed` is None when
      reading it failed. */
  method GatherKeys(locals: Option<seq<Record>>, listed: Option<seq<string>>)
    returns (localByKey: map<string, Record>, keys: seq<string>)
    ensures localByKey == if locals.Some? then ByKey(locals.value) else map[]
    ensures NoDups(keys)
    ensures forall k :: k in keys <==> k in localByKey || (listed.Some? && k in listed.value)
  {
    localByKey := map[];
    if locals.Some? {
      var recs := locals.value;
      for i := 0 to |recs|
        invariant localByKey == ByKey(recs[..i])
      {
        assert recs[..i + 1][..i] == recs[..i];
        localByKey := localByKey[recs[i].key := recs[i]];
      }
      assert recs[..|recs|] == recs;
    }
    var seen: set<string> := {};
    keys := [];
    var rest := localByKey.Keys;
    while rest != {}
      invariant rest <= localByKey.Keys && seen == localByKey.Keys - rest && NoDups(keys)
      invariant forall k :: k in keys <==> k in seen
      decreases rest
    {
      var k :| k in rest;
      if k !in seen {
        seen := seen + {k};
        keys := keys + [k];
      }
      rest := rest - {k};
    }
    if listed.Some? {
      var clusterKeys := listed.value;
      for i := 0 to |clusterKeys|
        invariant NoDups(keys) && forall k :: k in keys <==> k in seen
        invariant forall k :: k in keys <==> k in localByKey || k in clusterKeys[..i]
      {
        var k := clusterKeys[i];
        assert clusterKeys[..i + 1] == clusterKeys[..i] + [k];
        if k !in seen {
          seen := seen + {k};
          keys := keys + [k];
        }
      }
      assert clusterKeys[..|clusterKeys|] == clusterKeys;
    }
  }

  /** The snapshot of a key; a failed read counts as absent. */
  function Seen(records: map<string, Record>, env: Env, key: string): Option<Record> {
    if key in env.getFails then None else Lookup(records, key)
  }

  /** The store after maybePublish. */
  function Publish(records: map<string, Record>, key: string, local: Option<Record>, seen: Option<Record>, env: Env): map<string, Record> {
    if local.None? then records
    else if seen.Some? && AtMost(local.value.version, seen.value.version) then records
    else if key !in env.regetFails && key in records && AtMost(local.value.version, records[key].version) then records
    else if key in env.putFails then records
    else records[local.value.key := local.value]
  }

  class Store {
    var records: map<string, Record>

    constructor (records: map<string, Record>)
      ensures this.records == records
    {
      this.records := records;
    }

    method Get(key: string, fails: bool) returns (r: Option<Record>)
      ensures r == if fails then None else Lookup(records, key)
    {
      if !fails && key in records {
        r := Some(records[key]);
      } else {
        r := None;
      }
    }

    method Put(r: Record, fails: bool) returns (ok: bool)
      modifies this
      ensures ok == !fails
      ensures records == if fails then old(records) else old(records)[r.key := r]
    {
      if !fails {
        records := records[r.key := r];
      }
      ok := !fails;
    }
  }

  method MaybePublish(store: Store, key: string, local: Option<Record>, seen: Option<Record>, env: Env)
    modifies store
    ensures store.records == Publish(old(store.records), key, local, seen, env)
  {
    if local.None? {
      return;
    }
    if seen.Some? && !Newer(local.value.version, seen.value.version) {
      return;
    }
    var cur := store.Get(key, key in env.regetFails);
    if cur.Some? && !Newer(local.value.version, cur.value.version) {
      return;
    }
    var ok := store.Put(local.value, key in env.putFails);
  }

  datatype TickState = TickState(records: map<string, Record>, files: Files, changed: seq<string>)

  /** The record that wins a key. */
  function Best(locals: map<string, Record>, records: map<string, Record>, env: Env, key: string): Option<Record> {
    PickNewer(Lookup(locals, key), Seen(records, env, key))
  }

  /** Publish, pick and apply one key. An apply that fails is passed over. */
  function VisitKey(cfg: Config, locals: map<string, Record>, env: Env, ts: TickState, key: string): TickState {
    var records := Publish(ts.records, key, Lookup(locals, key), Seen(ts.records, env, key), env);
    var best := Best(locals, ts.records, env, key);
    if best.None? then TickState(records, ts.files, ts.changed)
    else
      var w := WriteAll(ts.files, Writes(cfg, best.value), env.faults);
      TickState(records, w.files, if w.ok && w.changed then ts.changed + [key] else ts.changed)
  }

  function VisitAll(cfg: Config, locals: map<string, Record>, env: Env, ts: TickState, keys: seq<string>): TickState {
    if keys == [] then ts
    else VisitKey(cfg, locals, env, VisitAll(cfg, locals, env, ts, keys[..|keys| - 1]), keys[|keys| - 1])
  }

  lemma VisitSnoc(cfg: Config, locals: map<string, Record>, env: Env, ts: TickState, keys: seq<string>, i: nat)
    requires i < |keys|
    ensures VisitAll(cfg, locals, env, ts, keys[..i + 1]) == VisitKey(cfg, locals, env, VisitAll(cfg, locals, env, ts, keys[..i]), keys[i])
  {
    assert keys[..i + 1][..i] == keys[..i];
  }

  lemma BestKeyed(locals: map<string, Record>, records: map<string, Record>, env: Env, key: string)
    requires Keyed(locals) && Keyed(records) && Best(locals, records, env, key).Some?
    ensures Best(locals, records, env, key).value.key == key
  {
  }

  lemma VisitKeyed(cfg: Config, locals: map<string, Record>, env: Env, ts: TickState, key: string)
    requires Keyed(locals) && Keyed(ts.records)
    ensures Keyed(VisitKey(cfg, locals, env, ts, key).records)
  {
  }

  lemma {:induction false} VisitAllKeyed(cfg: Config, locals: map<string, Record>, env: Env, ts: TickState, keys: seq<string>)
    requires Keyed(locals) && Keyed(ts.records)
    ensures Keyed(VisitAll(cfg, locals, env, ts, keys).records)
  {
    if keys != [] {
      VisitAllKeyed(cfg, locals, env, ts, keys[..|keys| - 1]);
      VisitKeyed(cfg, locals, env, VisitAll(cfg, locals, env, ts, keys[..|keys| - 1]), keys[|keys| - 1]);
    }
  }

  /** Changed keys are visited keys, each once. */
  lemma {:induction false} ChangedAreVisited(cfg: Config, locals: map<string, Record>, env: Env, ts: TickState, keys: seq<string>)
    requires ts.changed == [] && NoDups(keys)
    ensures var changed := VisitAll(cfg, locals, env, ts, keys).changed;
            NoDups(changed) && forall k :: k in changed ==> k in keys
  {
    if keys != [] {
      var front := keys[..|keys| - 1];
      ChangedAreVisited(cfg, locals, env, ts, front);
      assert keys[|keys| - 1] !in front;
    }
  }

  function Elements(keys: seq<string>): set<string> {
    set k | k in keys
  }

  lemma ElementsEmpty(keys: seq<string>)
    ensures keys == [] <==> Elements(keys) == {}
  {
    if keys != [] {
      assert keys[0] in Elements(keys);
    }
  }

  /** The engine's providers, as a closed choice. */
  datatype Provider = BlobP(blob: BlobProvider) | CertsP(certs: CertsProvider)

  function FsOf(p: Provider): FileSystem {
    match p
    case BlobP(b) => b.fs
    case CertsP(c) => c.fs
  }

  function ConfigOf(p: Provider): Config {
    match p
    case BlobP(b) => Blob(b.dests)
    case CertsP(c) => Certs(c.servingDir)
  }

  /** The objects a tick may change besides the store. */
  function Frame(p: Provider): set<object> {
    match p
    case BlobP(b) => {b, b.fs}
    case CertsP(c) => {c.fs}
  }

  /** `failing`: blob resources whose hook fails; `hookFails`: the certificate hook does. */
  predicate FlushOk(cfg: Config, changed: seq<string>, failing: set<string>, hookFails: bool) {
    match cfg
    case Blob(_) => Elements(changed) !! failing
    case Certs(_) => !hookFails
  }

  /** The whole tick on values, when undoing may fail: visit, then flush or undo. */
  function TickUndone(cfg: Config, locals: map<string, Record>, env: Env, ts: TickState, keys: seq<string>,
                      failing: set<string>, hookFails: bool, u: UndoFaults): TickState {
    var all := VisitAll(cfg, locals, env, ts, keys);
    if all.changed == [] || FlushOk(cfg, all.changed, failing, hookFails) then all
    else TickState(all.records, UndoAll(cfg, all.files, all.changed, u), all.changed)
  }

  /** With nothing failing in it, the undoing is a rollback. */
  lemma TickUndoneWithoutFaults(cfg: Config, locals: map<string, Record>, env: Env, ts: TickState, keys: seq<string>, failing: set<string>, hookFails: bool)
    ensures TickUndone(cfg, locals, env, ts, keys, failing, hookFails, NO_UNDO_FAULTS) == TickDone(cfg, locals, env, ts, keys, failing, hookFails)
  {
    var all := VisitAll(cfg, locals, env, ts, keys);
    UndoWithoutFaults(cfg, all.files, all.changed);
  }

  /** The same without such failures: visit, then flush or roll back. */
  function TickDone(cfg: Config, locals: map<string, Record>, env: Env, ts: TickState, keys: seq<string>, failing: set<string>, hookFails: bool): TickState {
    var all := VisitAll(cfg, locals, env, ts, keys);
    if all.changed == [] || FlushOk(cfg, all.changed, failing, hookFails) then all
    else TickState(all.records, RollbackAll(cfg, all.files, all.changed), all.changed)
  }

  method ApplyTo(p: Provider, r: Record, faults: map<Path, Fault>) returns (changed: bool, ok: bool)
    modifies Frame(p)
    ensures var w := WriteAll(old(FsOf(p).files), Writes(ConfigOf(p), r), faults);
            FsOf(p).files == w.files && ok == w.ok && changed == (w.ok && w.changed)
    ensures p.BlobP? ==> p.blob.pending == if changed then old(p.blob.pending) + {r.key} else old(p.blob.pending)
  {
    match p
    case BlobP(b) => changed, ok := b.Apply(r, faults);
    case CertsP(c) => changed, ok := c.Apply(r, faults);
  }

  method RollBack(p: Provider, keys: seq<string>, u: UndoFaults)
    modifies FsOf(p)
    ensures FsOf(p).files == UndoAll(ConfigOf(p), old(FsOf(p).files), keys, u)
  {
    match p
    case BlobP(b) => var ok := b.Rollback(keys, u);
    case CertsP(c) => var ok := c.Rollback(keys, u);
  }

  /** The apply loop. For blobs the provider's pending set is, throughout, the set of
      keys in the engine's list of changes, and only configured resources change. */
  method VisitKeys(store: Store, p: Provider, localByKey: map<string, Record>, keys: seq<string>, env: Env) returns (changed: seq<string>)
    requires Keyed(store.records) && Keyed(localByKey) && NoDups(keys)
    requires p.BlobP? ==> p.blob.pending == {}
    modifies store, Frame(p)
    ensures TickState(store.records, FsOf(p).files, changed) ==
            VisitAll(ConfigOf(p), localByKey, env, TickState(old(store.records), old(FsOf(p).files), []), keys)
    ensures p.BlobP? ==> p.blob.pending == Elements(changed) && Elements(changed) <= p.blob.dests.Keys
    ensures NoDups(changed)
  {
    ghost var was := TickState(store.records, FsOf(p).files, []);
    changed := [];
    var i := 0;
    while i < |keys|
      invariant 0 <= i <= |keys|
      invariant TickState(store.records, FsOf(p).files, changed) == VisitAll(ConfigOf(p), localByKey, env, was, keys[..i])
      invariant Keyed(store.records)
      invariant p.BlobP? ==> p.blob.pending == Elements(changed) && Elements(changed) <= p.blob.dests.Keys
    {
      VisitSnoc(ConfigOf(p), localByKey, env, was, keys, i);
      changed := VisitOne(store, p, localByKey, keys[i], env, changed);
      i := i + 1;
    }
    assert keys[..i] == keys;
    ChangedAreVisited(ConfigOf(p), localByKey, env, was, keys);
  }

  method VisitOne(store: Store, p: Provider, localByKey: map<string, Record>, key: string, env: Env, before: seq<string>) returns (changed: seq<string>)
    requires Keyed(store.records) && Keyed(localByKey)
    requires p.BlobP? ==> p.blob.pending == Elements(before) && Elements(before) <= p.blob.dests.Keys
    modifies store, Frame(p)
    ensures TickState(store.records, FsOf(p).files, changed) ==
            VisitKey(ConfigOf(p), localByKey, env, TickState(old(store.records), old(FsOf(p).files), before), key)
    ensures Keyed(store.records)
    ensures p.BlobP? ==> p.blob.pending == Elements(changed) && Elements(changed) <= p.blob.dests.Keys
  {
    ghost var ts := TickState(store.records, FsOf(p).files, before);
    VisitKeyed(ConfigOf(p), localByKey, env, ts, key);
    var local := Lookup(localByKey, key);
    var seen := store.Get(key, key in env.getFails);
    MaybePublish(store, key, local, seen, env);
    var best := PickNewer(local, seen);
    changed := before;
    if best.Some? {
      BestKeyed(localByKey, ts.records, env, key);
      var didChange, ok := ApplyTo(p, best.value, env.faults);
      if ok && didChange {
        changed := changed + [key];
        assert Elements(changed) == Elements(before) + {key};
      }
    }
  }

  /** A whole tick: gather, visit, flush once if anything changed, roll back the
      changed keys if the flush fails. */
  method TickProvider(store: Store, p: Provider, certLocals: Option<seq<Record>>, sha: Bytes -> string, mtime: Path -> int,
                      listed: Option<seq<string>>, env: Env, failing: set<string>, hookFails: bool, u: UndoFaults)
    returns (localByKey: map<string, Record>, keys: seq<string>, changed: seq<string>, ok: bool, ran: seq<string>)
    requires Keyed(store.records)
    modifies store, Frame(p)
    ensures localByKey == match p
                          case BlobP(b) => ByKey(LocalRecords(b.resources, old(b.fs.files), sha, mtime, b.host))
                          case CertsP(_) => if certLocals.Some? then ByKey(certLocals.value) else map[]
    ensures NoDups(keys) && forall k :: k in keys <==> k in localByKey || (listed.Some? && k in listed.value)
    ensures TickState(store.records, FsOf(p).files, changed) ==
            TickUndone(ConfigOf(p), localByKey, env, TickState(old(store.records), old(FsOf(p).files), []), keys, failing, hookFails, u)
    ensures ok == (changed == [] || FlushOk(ConfigOf(p), changed, failing, hookFails))
    ensures NoDups(changed) && NoDups(ran)
    ensures p.BlobP? ==> forall k :: k in ran <==> k in changed
    ensures p.BlobP? ==> p.blob.pending == if ok then {} else Elements(changed)
  {
    var locals := certLocals;
    if p.BlobP? {
      var recs := p.blob.Local(sha, mtime);
      locals := Some(recs);
    }
    localByKey, keys := GatherKeys(locals, listed);
    changed := VisitKeys(store, p, localByKey, keys, env);
    ran := [];
    ok := true;
    if |changed| == 0 {
      return;
    }
    match p {
      case BlobP(b) => ok, ran := b.Flush(failing);
      case CertsP(_) => ok := !hookFails;
    }
    if !ok {
      RollBack(p, changed, u);
    }
  }
}
