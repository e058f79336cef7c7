/** When a key that is stored but missing from the index gets back into it. */
module IndexRepair {
  import opened Versions
  import opened Index
  import Engine

  /** A node's attempt to publish a local record, with what fails in it: reads and the
      record's write as the engine sees them, and the index's lock, read and write. */
  datatype Attempt = Attempt(r: Record, env: Engine.Env, lockFails: bool, readFails: bool, writeFails: bool)

  /** The records of the map, as the engine sees them. */
  function RecordsOf(dm: map<string, Value>): map<string, Record> {
    map k | k in dm && Stored(dm, k) :: dm[k].rec
  }

  /** The attempt gets past both checks, against a stored record of version v, and the
      record's write succeeds. A read that fails lets any version pass. */
  predicate Passes(a: Attempt, v: Version) {
    && a.r.key !in a.env.putFails
    && (Newer(a.r.version, v) || (a.r.key in a.env.getFails && a.r.key in a.env.regetFails))
  }

  predicate Publishes(dm: map<string, Value>, a: Attempt) {
    if Stored(dm, a.r.key) then Passes(a, dm[a.r.key].rec.version) else a.r.key !in a.env.putFails
  }

  function Tried(dm: map<string, Value>, a: Attempt): map<string, Value> {
    if Publishes(dm, a) then PutWith(dm, a.r, Failures(false, a.lockFails, a.readFails, a.writeFails)) else dm
  }

  function AllTried(dm: map<string, Value>, attempts: seq<Attempt>): map<string, Value> {
    if attempts == [] then dm else Tried(AllTried(dm, attempts[..|attempts| - 1]), attempts[|attempts| - 1])
  }

  /** On the records an attempt is the engine's publish step, whatever happens to the index. */
  lemma TriedIsPublish(dm: map<string, Value>, a: Attempt)
    requires DataKey(a.r.key)
    ensures var records := RecordsOf(dm);
            RecordsOf(Tried(dm, a))
            == Engine.Publish(records, a.r.key, Some(a.r), Engine.Seen(records, a.env, a.r.key), a.env)
  {
    var out := PutWith(dm, a.r, Failures(false, a.lockFails, a.readFails, a.writeFails));
    assert RecordsOf(out) == RecordsOf(dm)[a.r.key := a.r];
  }

  predicate DataKeys(attempts: seq<Attempt>) {
    forall i :: 0 <= i < |attempts| ==> DataKey(attempts[i].r.key)
  }

  /** The version stored under k after the attempts, if it was v before: an attempt that
      passes raises or replaces it, whether or not its index update then works. */
  function VersionAfter(v: Version, attempts: seq<Attempt>, k: string): Version {
    if attempts == [] then v
    else
      var w, last := VersionAfter(v, attempts[..|attempts| - 1], k), attempts[|attempts| - 1];
      if last.r.key == k && Passes(last, w) then last.r.version else w
  }

  /** The i-th attempt is for k, passes against what is stored by then, and updates the index. */
  predicate Repairs(attempts: seq<Attempt>, i: nat, k: string, v: Version)
    requires i < |attempts|
  {
    var a := attempts[i];
    a.r.key == k && Passes(a, VersionAfter(v, attempts[..i], k)) && !a.readFails && !a.writeFails
  }

  ghost predicate SomeRepairs(attempts: seq<Attempt>, k: string, v: Version) {
    exists i :: 0 <= i < |attempts| && Repairs(attempts, i, k, v)
  }

  lemma SomeRepairsSnoc(attempts: seq<Attempt>, k: string, v: Version)
    requires attempts != []
    ensures var n := |attempts| - 1;
            SomeRepairs(attempts, k, v) <==> SomeRepairs(attempts[..n], k, v) || Repairs(attempts, n, k, v)
  {
    hide Passes, VersionAfter;
    var n := |attempts| - 1;
    forall i | 0 <= i < n ensures Repairs(attempts[..n], i, k, v) <==> Repairs(attempts, i, k, v) {
      assert attempts[..n][..i] == attempts[..i] && attempts[..n][i] == attempts[i];
    }
  }

  lemma TriedEntry(dm: map<string, Value>, a: Attempt, k: string)
    requires Decodable(dm) && Stored(dm, k) && DataKey(a.r.key)
    ensures var out := Tried(dm, a);
            && Decodable(out) && Stored(out, k)
            && (k in IndexOf(out) <==> k in IndexOf(dm) || (a.r.key == k && Publishes(dm, a) && !a.readFails && !a.writeFails))
            && out[k].rec.version == if a.r.key == k && Publishes(dm, a) then a.r.version else dm[k].rec.version
  {
    assert IndexOf(dm[a.r.key := Rec(a.r)]) == IndexOf(dm);
  }

  /** The stored version follows the attempts, and the key is missing up to the first
      attempt that repairs it. */
  lemma {:induction false} EntryAfter(dm: map<string, Value>, attempts: seq<Attempt>, k: string)
    requires Decodable(dm) && Stored(dm, k) && k !in IndexOf(dm) && DataKeys(attempts)
    ensures var out := AllTried(dm, attempts);
            && Decodable(out) && Stored(out, k) && out[k].rec.version == VersionAfter(dm[k].rec.version, attempts, k)
            && (k in IndexOf(out) <==> SomeRepairs(attempts, k, dm[k].rec.version))
  {
    if attempts != [] {
      hide Passes, Tried, Decodable, SomeRepairs;
      var front, last := attempts[..|attempts| - 1], attempts[|attempts| - 1];
      EntryAfter(dm, front, k);
      SomeRepairsSnoc(attempts, k, dm[k].rec.version);
      TriedEntry(AllTried(dm, front), last, k);
    } else {
      assert !SomeRepairs(attempts, k, dm[k].rec.version);
    }
  }

  /** A lost index entry, exactly: later attempts to publish bring it back if and only if
      one of them is for that key, carries a record newer than the one stored by then or
      has both its reads fail, and gets its index update through. */
  lemma LostEntryRepairedIff(dm: map<string, Value>, attempts: seq<Attempt>, k: string)
    requires Decodable(dm) && Stored(dm, k) && k !in IndexOf(dm) && DataKeys(attempts)
    ensures k in IndexOf(AllTried(dm, attempts)) <==> SomeRepairs(attempts, k, dm[k].rec.version)
  {
    EntryAfter(dm, attempts, k);
  }

  /** So a record that is not newer never brings it back while reads work. */
  lemma SameRecordNeverRepairs(dm: map<string, Value>, attempts: seq<Attempt>, k: string)
    requires Decodable(dm) && Stored(dm, k) && k !in IndexOf(dm) && DataKeys(attempts)
    requires forall i :: 0 <= i < |attempts| && attempts[i].r.key == k ==>
               AtMost(attempts[i].r.version, dm[k].rec.version) && k !in attempts[i].env.getFails
    ensures k !in IndexOf(AllTried(dm, attempts))
  {
    EntryAfter(dm, attempts, k);
    forall i | 0 <= i < |attempts| ensures !Repairs(attempts, i, k, dm[k].rec.version) {
      VersionStays(dm[k].rec.version, attempts[..i], k);
    }
  }

  lemma {:induction false} VersionStays(v: Version, attempts: seq<Attempt>, k: string)
    requires forall i :: 0 <= i < |attempts| && attempts[i].r.key == k ==> AtMost(attempts[i].r.version, v) && k !in attempts[i].env.getFails
    ensures VersionAfter(v, attempts, k) == v
  {
    if attempts != [] {
      VersionStays(v, attempts[..|attempts| - 1], k);
    }
  }

  /** The same of the entry that two unlocked calls lose. */
  lemma LostUpdateRepairedIff(a: Record, b: Record, attempts: seq<Attempt>)
    requires DataKey(a.key) && DataKey(b.key) && a.key != b.key && DataKeys(attempts)
    ensures var dm := Run(Two(map[], Ready, Ready), LostUpdate(a, b)).dm;
            a.key in IndexOf(AllTried(dm, attempts)) <==> SomeRepairs(attempts, a.key, a.version)
  {
    hide Run, LostUpdate;
    var dm := Run(Two(map[], Ready, Ready), LostUpdate(a, b)).dm;
    UnlockedIndexLosesKey(a, b);
    LostEntryRepairedIff(dm, attempts, a.key);
  }
}
