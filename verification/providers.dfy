/** The two providers of the engine: blobs, one destination file per configured
    resource, and certificates, one directory per lineage. */
module Providers {
  import opened Versions
  import opened AtomicFile
  import opened Bundles
  import opened CertVersion

  const BLOB_KIND := "blob"
  const CERTS_KIND := "certs"

  /** A provider's fixed settings. */
  datatype Config =
    | Blob(dests: map<string, Path>)
    | Certs(servingDir: string)

  function BlobOf(r: Record, name: string): Bytes {
    if name in r.blobs then r.blobs[name] else ""
  }

  const ZERO_VERSION := BundleVersion(Time(0, 0), Time(0, 0), "", "")

  function ToRecord(b: Bundle, host: string): Record {
    Record(CERTS_KIND, b.lineage, Embed(b.version),
           map["cert" := b.certPEM, "key" := b.keyPEM, "chain" := b.chainPEM, "full" := b.fullPEM],
           map["domain" := b.domain, "serial" := b.version.serial, "sha256" := b.version.sha256],
           host)
  }

  function FromRecord(r: Record): Bundle {
    Bundle(r.key, if "domain" in r.meta then r.meta["domain"] else "", ZERO_VERSION,
           BlobOf(r, "cert"), BlobOf(r, "key"), BlobOf(r, "chain"), BlobOf(r, "full"))
  }

  /** A bundle survives the trip through the cluster, except for its version, which
      the record carries in the engine's form. */
  lemma BundleRoundTrip(b: Bundle, host: string)
    ensures FromRecord(ToRecord(b, host)) == b.(version := ZERO_VERSION)
    ensures var r := ToRecord(b, host);
            && r.kind == "certs" && r.key == b.lineage && r.version == Embed(b.version) && r.source == host
            && Lookup(r.meta, "serial") == Some(b.version.serial) && Lookup(r.meta, "sha256") == Some(b.version.sha256)
  {
    assert "cert"[0] != "key"[0] && "cert"[1] != "chain"[1] && "cert"[0] != "full"[0];
    assert "key"[0] != "chain"[0] && "key"[0] != "full"[0] && "chain"[0] != "full"[0];
    assert "domain"[0] != "serial"[0] && "domain"[0] != "sha256"[0] && "serial"[1] != "sha256"[1];
  }

  function LineageDir(servingDir: string, key: string): string {
    servingDir + "/" + key
  }

  /** The file writes by which a provider applies a record. A blob record whose name is
      not configured here is skipped. */
  function Writes(cfg: Config, r: Record): seq<(Path, Bytes)> {
    match cfg
    case Blob(dests) => if r.key in dests then [(dests[r.key], BlobOf(r, "data"))] else []
    case Certs(servingDir) => Wanted(Members(FromRecord(r)), LineageDir(servingDir, r.key))
  }

  /** The paths that belong to a key. */
  predicate InArea(cfg: Config, key: string, q: Path) {
    match cfg
    case Blob(dests) => key in dests && (q == dests[key] || q == BackupOf(dests[key]))
    case Certs(servingDir) => q.dir == LineageDir(servingDir, key)
  }

  /** Distinct keys own distinct paths. */
  ghost predicate Separate(cfg: Config) {
    forall j, k, q :: j != k ==> !(InArea(cfg, j, q) && InArea(cfg, k, q))
  }

  lemma LineagesSeparate(servingDir: string)
    ensures Separate(Certs(servingDir))
  {
    var cfg := Certs(servingDir);
    forall j, k, q | j != k ensures !(InArea(cfg, j, q) && InArea(cfg, k, q)) {
      var prefix := servingDir + "/";
      assert LineageDir(servingDir, j)[|prefix|..] == j && LineageDir(servingDir, k)[|prefix|..] == k;
    }
  }

  /** Blob resources are separate if and only if their destinations are distinct and
      none is another's backup. */
  lemma BlobsSeparateIff(dests: map<string, Path>)
    ensures Separate(Blob(dests)) <==>
            forall j, k :: j in dests && k in dests && j != k ==> dests[j] != dests[k] && dests[j] != BackupOf(dests[k])
  {
    var cfg := Blob(dests);
    if Separate(cfg) {
      forall j, k | j in dests && k in dests && j != k ensures dests[j] != dests[k] && dests[j] != BackupOf(dests[k]) {
        assert InArea(cfg, j, dests[j]);
        assert InArea(cfg, k, dests[k]) && InArea(cfg, k, BackupOf(dests[k]));
      }
    } else {
      var j, k, q :| j != k && InArea(cfg, j, q) && InArea(cfg, k, q);
      BackupOfInjective(dests[j], dests[k]);
    }
  }

  /** Undoing one key: its file for a blob, its whole directory for a lineage. */
  function RollbackKey(cfg: Config, files: Files, key: string): Files {
    match cfg
    case Blob(dests) => if key in dests then Restored(files, dests[key]) else files
    case Certs(servingDir) => RestoredDir(files, LineageDir(servingDir, key))
  }

  function RollbackAll(cfg: Config, files: Files, keys: seq<string>): Files {
    if keys == [] then files
    else RollbackKey(cfg, RollbackAll(cfg, files, keys[..|keys| - 1]), keys[|keys| - 1])
  }

  lemma SingleWrite(files: Files, p: Path, data: Bytes, faults: map<Path, Fault>)
    ensures WriteAll(files, [(p, data)], faults) == Write(files, p, data, FaultAt(faults, p))
  {
    WriteAllSnoc(files, [], p, data, faults);
    assert [] + [(p, data)] == [(p, data)];
  }

  /** What goes wrong in a rollback: the restore, or the reading of the directory, fails for
      some keys, and for others the rename of some entries does. */
  datatype UndoFaults = UndoFaults(keys: set<string>, entries: map<string, set<string>>)

  const NO_UNDO_FAULTS := UndoFaults({}, map[])

  function StuckIn(u: UndoFaults, key: string): set<string> {
    if key in u.entries then u.entries[key] else {}
  }

  /** Undoing one key when something may fail. */
  function UndoKey(cfg: Config, files: Files, key: string, u: UndoFaults): Files {
    if key in u.keys then files
    else
      match cfg
      case Blob(dests) => if key in dests then Restored(files, dests[key]) else files
      case Certs(servingDir) =>
        var dir := LineageDir(servingDir, key);
        RestoredPart(files, dir, ReachedPast(files, dir, StuckIn(u, key)))
  }

  /** Undoing it ends without an error. */
  predicate UndoOk(cfg: Config, files: Files, key: string, u: UndoFaults) {
    match cfg
    case Blob(dests) => key !in dests || key !in u.keys
    case Certs(servingDir) => key !in u.keys && Unblocked(files, LineageDir(servingDir, key), StuckIn(u, key))
  }

  /** Undoing the keys in turn; an error does not stop the others. */
  function UndoAll(cfg: Config, files: Files, keys: seq<string>, u: UndoFaults): Files {
    if keys == [] then files
    else UndoKey(cfg, UndoAll(cfg, files, keys[..|keys| - 1], u), keys[|keys| - 1], u)
  }

  predicate AllUndoOk(cfg: Config, files: Files, keys: seq<string>, u: UndoFaults) {
    keys == [] ||
    (var front := keys[..|keys| - 1];
     AllUndoOk(cfg, files, front, u) && UndoOk(cfg, UndoAll(cfg, files, front, u), keys[|keys| - 1], u))
  }

  lemma UndoSnoc(cfg: Config, files: Files, keys: seq<string>, i: nat, u: UndoFaults)
    requires i < |keys|
    ensures UndoAll(cfg, files, keys[..i + 1], u) == UndoKey(cfg, UndoAll(cfg, files, keys[..i], u), keys[i], u)
    ensures AllUndoOk(cfg, files, keys[..i + 1], u) <==>
            AllUndoOk(cfg, files, keys[..i], u) && UndoOk(cfg, UndoAll(cfg, files, keys[..i], u), keys[i], u)
  {
    hide UndoKey, UndoOk;
    assert keys[..i + 1][..i] == keys[..i];
  }

  /** With nothing failing, undoing is the rollback of the laws. */
  lemma {:induction false} UndoWithoutFaults(cfg: Config, files: Files, keys: seq<string>)
    ensures UndoAll(cfg, files, keys, NO_UNDO_FAULTS) == RollbackAll(cfg, files, keys)
  {
    if keys != [] {
      var front, last := keys[..|keys| - 1], keys[|keys| - 1];
      UndoWithoutFaults(cfg, files, front);
      if cfg.Certs? {
        NothingStuck(RollbackAll(cfg, files, front), LineageDir(cfg.servingDir, last));
      }
    }
  }

  /** A configured blob resource. */
  datatype Resource = Resource(name: string, source: Path, dest: Path, strategy: string)

  /** The destination of each name; a name configured twice keeps the later one. */
  function DestsOf(rs: seq<Resource>): map<string, Path> {
    if rs == [] then map[] else DestsOf(rs[..|rs| - 1])[rs[|rs| - 1].name := rs[|rs| - 1].dest]
  }

  /** The configured names are the destinations', and each has that of the last resource
      configured under it. */
  lemma {:induction false} DestIsLast(rs: seq<Resource>, i: nat)
    requires i < |rs| && forall j :: i < j < |rs| ==> rs[j].name != rs[i].name
    ensures Lookup(DestsOf(rs), rs[i].name) == Some(rs[i].dest)
  {
    var n := |rs| - 1;
    if i < n {
      assert rs[..n][i] == rs[i] && rs[n].name != rs[i].name;
      DestIsLast(rs[..n], i);
    }
  }

  lemma {:induction false} DestsAreConfigured(rs: seq<Resource>, name: string)
    ensures name in DestsOf(rs) <==> exists i :: 0 <= i < |rs| && rs[i].name == name
  {
    if rs != [] {
      var n := |rs| - 1;
      DestsAreConfigured(rs[..n], name);
      if i :| 0 <= i < |rs| && rs[i].name == name && i < n {
        assert rs[..n][i] == rs[i];
      }
      if i :| 0 <= i < n && rs[..n][i].name == name {
        assert rs[i].name == name;
      }
    }
  }

  /** The record read from a resource's source file. The hash and the modification time
      are the environment's; a time that cannot be read counts as 0. */
  function SourceRecord(r: Resource, data: Bytes, sha: string, mtime: int, host: string): Record {
    Record(BLOB_KIND, r.name, Version(if r.strategy == "sha" then 0 else mtime, 0, sha),
           map["data" := data], map["sha256" := sha], host)
  }

  /** One record per resource whose source is there, in configuration order. */
  function LocalRecords(rs: seq<Resource>, files: Files, sha: Bytes -> string, mtime: Path -> int, host: string): seq<Record> {
    if rs == [] then []
    else
      var r := rs[|rs| - 1];
      var before := LocalRecords(rs[..|rs| - 1], files, sha, mtime, host);
      if r.source in files
      then before + [SourceRecord(r, files[r.source], sha(files[r.source]), mtime(r.source), host)]
      else before
  }

  /** How many of the resources have a source that is there. */
  function ReadableCount(rs: seq<Resource>, files: Files): nat {
    if rs == [] then 0 else ReadableCount(rs[..|rs| - 1], files) + if rs[|rs| - 1].source in files then 1 else 0
  }

  /** The local records, one by one: the i-th resource, if its source is there, has the record
      whose place is the number of readable resources before it. Its key is the resource's
      name, its contents the source's, its tiebreak their hash, and its primary the
      modification time unless the strategy is "sha". */
  lemma {:induction false} LocalRecordAt(rs: seq<Resource>, files: Files, sha: Bytes -> string, mtime: Path -> int, host: string, i: nat)
    requires i < |rs| && rs[i].source in files
    ensures var recs, at, r := LocalRecords(rs, files, sha, mtime, host), ReadableCount(rs[..i], files), rs[i];
            && |recs| == ReadableCount(rs, files) && at < |recs|
            && var data := files[r.source];
            && recs[at].kind == "blob" && recs[at].key == r.name && recs[at].source == host
            && recs[at].blobs == map["data" := data] && recs[at].meta == map["sha256" := sha(data)]
            && recs[at].version.tiebreak == sha(data) && recs[at].version.secondary == 0
            && recs[at].version.primary == (if r.strategy != "sha" then mtime(r.source) else 0)
  {
    var n := |rs| - 1;
    LocalRecordCount(rs, files, sha, mtime, host);
    LocalRecordCount(rs[..n], files, sha, mtime, host);
    if i < n {
      assert rs[..n][i] == rs[i] && rs[..n][..i] == rs[..i];
      LocalRecordAt(rs[..n], files, sha, mtime, host, i);
    }
  }

  lemma {:induction false} LocalRecordCount(rs: seq<Resource>, files: Files, sha: Bytes -> string, mtime: Path -> int, host: string)
    ensures |LocalRecords(rs, files, sha, mtime, host)| == ReadableCount(rs, files)
  {
    if rs != [] {
      LocalRecordCount(rs[..|rs| - 1], files, sha, mtime, host);
    }
  }

  /** From source to destination: applying the record read from a resource puts exactly the
      source's bytes at the destination configured for its name. */
  lemma SourceReachesDest(res: Resource, data: Bytes, sha: string, mtime: int, host: string, dests: map<string, Path>, files: Files)
    requires res.name in dests
    ensures var out := WriteAll(files, Writes(Blob(dests), SourceRecord(res, data, sha, mtime, host)), map[]);
            out.ok && Lookup(out.files, dests[res.name]) == Some(data)
  {
    var r := SourceRecord(res, data, sha, mtime, host);
    assert Writes(Blob(dests), r) == [(dests[res.name], data)];
    SingleWrite(files, dests[res.name], data, map[]);
    BackupOfInjective(dests[res.name], dests[res.name]);
  }

  /** Of two reads under a strategy other than "sha" the later modified is the newer. */
  lemma LaterReadIsNewer(a: Resource, b: Resource, x: Bytes, y: Bytes, sx: string, sy: string, mx: int, my: int, host: string, host': string)
    requires a.strategy != "sha" && b.strategy != "sha" && mx > my
    ensures Newer(SourceRecord(a, x, sx, mx, host).version, SourceRecord(b, y, sy, my, host').version)
  {
    NewerIff(SourceRecord(a, x, sx, mx, host).version, SourceRecord(b, y, sy, my, host').version);
  }

  /** The contents of a record that applying it leaves in the file `name` of a lineage. */
  predicate ServesBlob(out: Files, servingDir: string, r: Record, name: string, blob: string) {
    blob in r.blobs && r.blobs[blob] != "" ==> Lookup(out, Path(servingDir + "/" + r.key, name)) == Some(r.blobs[blob])
  }

  /** Which contents end in which file, by name. */
  lemma CertFilesByName(servingDir: string, r: Record, files: Files)
    ensures var out := WriteAll(files, Writes(Certs(servingDir), r), map[]).files;
            && ServesBlob(out, servingDir, r, "cert.pem", "cert") && ServesBlob(out, servingDir, r, "privkey.pem", "key")
            && ServesBlob(out, servingDir, r, "chain.pem", "chain") && ServesBlob(out, servingDir, r, "fullchain.pem", "full")
  {
    var b, dir := FromRecord(r), LineageDir(servingDir, r.key);
    BundleFilesByName(files, b, dir);
  }

  class BlobProvider {
    const resources: seq<Resource>
    const dests: map<string, Path>
    const host: string
    const fs: FileSystem
    var pending: set<string>

    constructor (resources: seq<Resource>, host: string, fs: FileSystem)
      ensures this.resources == resources && this.host == host && this.fs == fs
      ensures dests == DestsOf(resources) && pending == {}
    {
      this.resources := resources;
      this.host := host;
      this.fs := fs;
      var byName := map[];
      for i := 0 to |resources|
        invariant byName == DestsOf(resources[..i])
      {
        assert resources[..i + 1][..i] == resources[..i];
        byName := byName[resources[i].name := resources[i].dest];
      }
      assert resources[..|resources|] == resources;
      dests := byName;
      pending := {};
    }

    /** Starts the tick's pending set afresh and reads every source that is there, in order. */
    method Local(sha: Bytes -> string, mtime: Path -> int) returns (recs: seq<Record>)
      modifies this`pending
      ensures pending == {}
      ensures recs == LocalRecords(resources, fs.files, sha, mtime, host)
    {
      pending := {};
      recs := [];
      for i := 0 to |resources|
        invariant pending == {} && recs == LocalRecords(resources[..i], fs.files, sha, mtime, host)
      {
        assert resources[..i + 1][..i] == resources[..i];
        var source := resources[i].source;
        if source in fs.files {
          var data := fs.files[source];
          recs := recs + [SourceRecord(resources[i], data, sha(data), mtime(source), host)];
        }
      }
      assert resources[..|resources|] == resources;
    }

    method Apply(r: Record, faults: map<Path, Fault>) returns (changed: bool, ok: bool)
      modifies this`pending, fs
      ensures var w := WriteAll(old(fs.files), Writes(Blob(dests), r), faults);
              fs.files == w.files && ok == w.ok && changed == (w.ok && w.changed)
      ensures pending == if changed then old(pending) + {r.key} else old(pending)
    {
      if r.key !in dests {
        return false, true;
      }
      var p := dests[r.key];
      SingleWrite(fs.files, p, BlobOf(r, "data"), faults);
      var c, written := fs.WriteAtomic(p, BlobOf(r, "data"), FaultAt(faults, p));
      if !written {
        return false, false;
      }
      if c {
        pending := pending + {r.key};
      }
      return c, true;
    }

    /** Runs the hooks of the pending resources that are configured, in any order;
        `failing` are those whose hook fails. The set is emptied only if all hooks succeed. */
    method Flush(failing: set<string>) returns (ok: bool, ran: seq<string>)
      modifies this`pending
      ensures NoDups(ran) && forall k :: k in ran <==> k in old(pending) && k in dests
      ensures ok <==> old(pending) * dests.Keys !! failing
      ensures pending == if ok then {} else old(pending)
    {
      ran := [];
      ok := true;
      var rest := pending;
      while rest != {}
        invariant rest <= pending && NoDups(ran)
        invariant forall k :: k in ran <==> k in pending - rest && k in dests
        invariant ok <==> (pending - rest) * dests.Keys !! failing
        decreases rest
      {
        var name :| name in rest;
        if name in dests {
          assert name !in ran;
          ran := ran + [name];
          if name in failing {
            ok := false;
          }
        }
        rest := rest - {name};
      }
      if ok {
        pending := {};
      }
    }

    /** A restore that fails does not stop the others. */
    method Rollback(keys: seq<string>, u: UndoFaults) returns (ok: bool)
      modifies fs
      ensures fs.files == UndoAll(Blob(dests), old(fs.files), keys, u)
      ensures ok == AllUndoOk(Blob(dests), old(fs.files), keys, u)
    {
      ghost var was := fs.files;
      ok := true;
      var i := 0;
      while i < |keys|
        invariant 0 <= i <= |keys| && fs.files == UndoAll(Blob(dests), was, keys[..i], u)
        invariant ok == AllUndoOk(Blob(dests), was, keys[..i], u)
      {
        UndoSnoc(Blob(dests), was, keys, i, u);
        if keys[i] in dests {
          var restored := fs.Restore(dests[keys[i]], keys[i] in u.keys);
          ok := ok && restored;
        }
        i := i + 1;
      }
      assert keys[..i] == keys;
    }
  }

  class CertsProvider {
    const servingDir: string
    const fs: FileSystem

    constructor (servingDir: string, fs: FileSystem)
      ensures this.servingDir == servingDir && this.fs == fs
    {
      this.servingDir := servingDir;
      this.fs := fs;
    }

    method Apply(r: Record, faults: map<Path, Fault>) returns (changed: bool, ok: bool)
      modifies fs
      ensures var w := WriteAll(old(fs.files), Writes(Certs(servingDir), r), faults);
              fs.files == w.files && ok == w.ok && changed == (w.ok && w.changed)
    {
      var c, written := WriteBundle(fs, FromRecord(r), LineageDir(servingDir, r.key), faults);
      if !written {
        return false, false;
      }
      return c, true;
    }

    /** A directory that cannot be restored does not stop the others. */
    method Rollback(keys: seq<string>, u: UndoFaults) returns (ok: bool)
      modifies fs
      ensures fs.files == UndoAll(Certs(servingDir), old(fs.files), keys, u)
      ensures ok == AllUndoOk(Certs(servingDir), old(fs.files), keys, u)
    {
      hide RestoredPart, ReachedPast, Unblocked;
      ghost var was := fs.files;
      ok := true;
      var i := 0;
      while i < |keys|
        invariant 0 <= i <= |keys| && fs.files == UndoAll(Certs(servingDir), was, keys[..i], u)
        invariant ok == AllUndoOk(Certs(servingDir), was, keys[..i], u)
      {
        UndoSnoc(Certs(servingDir), was, keys, i, u);
        var key := keys[i];
        var restored := fs.RestoreDir(LineageDir(servingDir, key), key in u.keys, StuckIn(u, key));
        ok := ok && restored;
        i := i + 1;
      }
      assert keys[..i] == keys;
    }
  }
}
