/** One WAN backend: its store under composite keys, its handlers, and the Get and
    Keys operations that also ask the peers. */
module WanStore {
  import opened Versions
  import Wan

  const NUL := '\0'

  function StoreKey(kind: string, key: string): (sk: string) {
    kind + [NUL] + key
  }

  predicate NulFree(s: string) {
    NUL !in s
  }

  /** A longer NUL-free kind has another byte where the shorter composite key has the NUL. */
  lemma KindEndsAtNul(kind: string, key: string, longer: string)
    requires NulFree(longer)
    ensures |kind| < |longer| ==> StoreKey(kind, key)[|kind|] != longer[|kind|]
  {
    assert StoreKey(kind, key)[|kind|] == NUL;
  }

  /** Composite keys under NUL-free kinds do not collide. */
  lemma {:induction false} StoreKeyInjective(kind: string, key: string, kind': string, key': string)
    requires NulFree(kind) && NulFree(kind')
    ensures StoreKey(kind, key) == StoreKey(kind', key') <==> kind == kind' && key == key'
  {
    var l, r := StoreKey(kind, key), StoreKey(kind', key');
    if l == r {
      assert |kind| == |kind'| by {
        KindEndsAtNul(kind, key, kind');
        KindEndsAtNul(kind', key', kind);
      }
      assert kind == l[..|kind|] && kind' == r[..|kind'|];
      assert key == l[|kind| + 1..] && key' == r[|kind'| + 1..];
    }
  }

  /** A kind with a NUL in it can shadow another kind's key. */
  lemma NulKindCollides(a: string, b: string, c: string)
    ensures StoreKey(StoreKey(a, b), c) == StoreKey(a, StoreKey(b, c))
  {
  }

  /** Every entry is filed under its own kind and key. */
  predicate Filed(store: map<string, Record>) {
    forall sk :: sk in store ==> sk == StoreKey(store[sk].kind, store[sk].key) && NulFree(store[sk].kind)
  }

  /** The version-guarded write of handlePutRecord. */
  function Guarded(store: map<string, Record>, r: Record): (s: map<string, Record>) {
    var sk := StoreKey(r.kind, r.key);
    if sk in store && AtMost(r.version, store[sk].version) then store else store[sk := r]
  }

  /** The unguarded write of Put. */
  function Written(store: map<string, Record>, r: Record): (s: map<string, Record>) {
    store[StoreKey(r.kind, r.key) := r]
  }

  /** The test of the key scans. */
  predicate Scanned(kind: string, sk: string) {
    |sk| > |kind| + 1 && sk[..|kind| + 1] == kind + [NUL]
  }

  lemma ScannedSplits(kind: string, sk: string)
    ensures Scanned(kind, sk) <==> exists key :: key != "" && sk == StoreKey(kind, key)
    ensures Scanned(kind, sk) ==> sk == StoreKey(kind, sk[|kind| + 1..])
  {
    if Scanned(kind, sk) {
      assert sk == sk[..|kind| + 1] + sk[|kind| + 1..];
      assert sk[|kind| + 1..] != "" && sk == StoreKey(kind, sk[|kind| + 1..]);
    }
    if key :| key != "" && sk == StoreKey(kind, key) {
      assert sk[..|kind| + 1] == kind + [NUL];
    }
  }

  /** The records of one kind, under their own keys: the store of the protocol model. */
  ghost function View(store: map<string, Record>, kind: string): (v: map<string, Record>)
    ensures forall k :: k in v <==> StoreKey(kind, k) in store
    ensures forall k :: k in v ==> v[k] == store[StoreKey(kind, k)]
  {
    var tails := set sk | sk in store && |sk| > |kind| :: sk[|kind| + 1..];
    var v := map k | k in tails && StoreKey(kind, k) in store :: store[StoreKey(kind, k)];
    assert forall k :: StoreKey(kind, k) in store ==> k in tails by {
      forall k | StoreKey(kind, k) in store ensures k in tails {
        assert StoreKey(kind, k)[|kind| + 1..] == k;
      }
    }
    v
  }

  /** An incoming record is the protocol's guarded write on its own kind and touches no other. */
  lemma GuardedView(store: map<string, Record>, r: Record, kind: string)
    requires NulFree(kind) && NulFree(r.kind)
    ensures View(Guarded(store, r), kind) == if r.kind == kind then Wan.Guarded(View(store, kind), r) else View(store, kind)
  {
    forall k { StoreKeyInjective(kind, k, r.kind, r.key); }
  }

  lemma WrittenView(store: map<string, Record>, r: Record, kind: string)
    requires NulFree(kind) && NulFree(r.kind)
    ensures View(Written(store, r), kind) == if r.kind == kind then View(store, kind)[r.key := r] else View(store, kind)
  {
    forall k { StoreKeyInjective(kind, k, r.kind, r.key); }
  }

  lemma FiledKept(store: map<string, Record>, r: Record)
    requires Filed(store) && NulFree(r.kind)
    ensures Filed(Guarded(store, r)) && Filed(Written(store, r))
  {
  }

  /** In a filed store the scan lists exactly the non-empty keys of the kind's records. */
  lemma ScanListsKind(store: map<string, Record>, kind: string, k: string)
    requires Filed(store) && NulFree(kind) && k != ""
    ensures StoreKey(kind, k) in store <==>
            exists sk :: sk in store && store[sk].kind == kind && store[sk].key == k
  {
    if StoreKey(kind, k) in store {
      var r := store[StoreKey(kind, k)];
      StoreKeyInjective(kind, k, r.kind, r.key);
    }
  }

  /** k is listed by the node's own store or by a peer that answers. */
  ghost predicate Listed(own: map<string, Record>, peers: seq<map<string, Record>>, up: seq<bool>, kind: string, k: string)
    requires |up| == |peers|
  {
    k != "" && (StoreKey(kind, k) in own || exists i :: 0 <= i < |peers| && up[i] && StoreKey(kind, k) in peers[i])
  }

  /** The own record, or else that of the first peer that answers and has one. */
  function Found(own: map<string, Record>, peers: seq<map<string, Record>>, up: seq<bool>, sk: string): (r: Option<Record>)
    requires |up| == |peers|
    decreases |peers|
  {
    if sk in own then Some(own[sk])
    else if peers == [] then None
    else if up[0] && sk in peers[0] then Some(peers[0][sk])
    else Found(own, peers[1..], up[1..], sk)
  }

  /** Listing agrees with lookup: with the same peers answering and the stores
      unchanged, the listed keys are exactly the non-empty keys that Get finds. */
  lemma {:induction false} ListedIffFound(own: map<string, Record>, peers: seq<map<string, Record>>, up: seq<bool>, kind: string, k: string)
    requires |up| == |peers| && k != ""
    ensures Listed(own, peers, up, kind, k) <==> Found(own, peers, up, StoreKey(kind, k)).Some?
    decreases |peers|
  {
    var sk := StoreKey(kind, k);
    if sk !in own && peers != [] && !(up[0] && sk in peers[0]) {
      ListedIffFound(own, peers[1..], up[1..], kind, k);
      if i :| 0 <= i < |peers| && up[i] && sk in peers[i] {
        assert peers[1..][i - 1] == peers[i] && up[1..][i - 1] == up[i];
      }
    }
  }

  /** What Get returns is a stored record of the requested kind and key. */
  lemma {:induction false} FoundIsFiled(own: map<string, Record>, peers: seq<map<string, Record>>, up: seq<bool>, kind: string, k: string)
    requires |up| == |peers| && NulFree(kind) && Filed(own) && forall i :: 0 <= i < |peers| ==> Filed(peers[i])
    ensures var r := Found(own, peers, up, StoreKey(kind, k)); r.Some? ==> r.value.kind == kind && r.value.key == k
    decreases |peers|
  {
    var sk := StoreKey(kind, k);
    if sk in own {
      StoreKeyInjective(kind, k, own[sk].kind, own[sk].key);
    } else if peers != [] {
      if up[0] && sk in peers[0] {
        assert Filed(peers[0]);
        StoreKeyInjective(kind, k, peers[0][sk].kind, peers[0][sk].key);
      } else {
        FoundIsFiled(own, peers[1..], up[1..], kind, k);
      }
    }
  }

  class Backend {
    const peers: seq<Backend>
    var store: map<string, Record>

    constructor (peers: seq<Backend>)
      ensures this.peers == peers && store == map[]
    {
      this.peers := peers;
      store := map[];
    }

    /** Stores r without a version check and sends it to every peer. */
    method Put(r: Record) returns (sent: seq<(Backend, Record)>)
      modifies this`store
      ensures store == Written(old(store), r)
      ensures old(Filed(store)) && NulFree(r.kind) ==> Filed(store)
      ensures |sent| == |peers| && forall i :: 0 <= i < |peers| ==> sent[i] == (peers[i], r)
    {
      if Filed(store) && NulFree(r.kind) { FiledKept(store, r); }
      store := store[StoreKey(r.kind, r.key) := r];
      sent := [];
      for i := 0 to |peers|
        invariant |sent| == i && forall j :: 0 <= j < i ==> sent[j] == (peers[j], r)
      {
        sent := sent + [(peers[i], r)];
      }
    }

    /** An incoming push: overwrites only with a strictly newer record. */
    method HandlePutRecord(r: Record)
      modifies this`store
      ensures store == Guarded(old(store), r)
      ensures old(Filed(store)) && NulFree(r.kind) ==> Filed(store)
    {
      if Filed(store) && NulFree(r.kind) { FiledKept(store, r); }
      var k := StoreKey(r.kind, r.key);
      if k in store {
        var existing := store[k];
        if !Newer(r.version, existing.version) {
          return;
        }
      }
      store := store[k := r];
    }

    method HandleGetRecord(kind: string, key: string) returns (r: Option<Record>)
      ensures r == Lookup(store, StoreKey(kind, key))
    {
      if StoreKey(kind, key) in store {
        r := Some(store[StoreKey(kind, key)]);
      } else {
        r := None;
      }
    }

    /** The prefix scan over the store, in any order. */
    method HandleGetKeys(kind: string) returns (keys: seq<string>)
      ensures NoDups(keys)
      ensures forall k :: k in keys <==> k != "" && StoreKey(kind, k) in store
    {
      keys := [];
      var rest := store.Keys;
      while rest != {}
        invariant rest <= store.Keys && NoDups(keys)
        invariant forall k :: k in keys <==> k != "" && StoreKey(kind, k) in store.Keys - rest
        decreases rest
      {
        var sk :| sk in rest;
        ScannedSplits(kind, sk);
        if |sk| > |kind| + 1 && sk[..|kind| + 1] == kind + [NUL] {
          ghost var before := keys;
          keys := keys + [sk[|kind| + 1..]];
          forall k ensures k in keys <==> k != "" && StoreKey(kind, k) in store.Keys - (rest - {sk}) {
            assert k in keys <==> k in before || k == sk[|kind| + 1..];
            if StoreKey(kind, k) == sk { assert k == sk[|kind| + 1..]; }
          }
        }
        rest := rest - {sk};
      }
    }

    ghost function PeerStores(): (s: seq<map<string, Record>>)
      reads peers
      ensures |s| == |peers| && forall i :: 0 <= i < |peers| ==> s[i] == peers[i].store
    {
      seq(|peers|, i requires 0 <= i < |peers| reads peers => peers[i].store)
    }

    /** The own store first, then the peers in order; `up` says which of them answer. */
    method Get(kind: string, key: string, up: seq<bool>) returns (r: Option<Record>)
      requires |up| == |peers|
      ensures r == Found(store, PeerStores(), up, StoreKey(kind, key))
    {
      var sk := StoreKey(kind, key);
      if sk in store {
        return Some(store[sk]);
      }
      var i := 0;
      while i < |peers|
        invariant 0 <= i <= |peers|
        invariant Found(store, PeerStores(), up, sk) == Found(store, PeerStores()[i..], up[i..], sk)
      {
        if up[i] {
          var answer := peers[i].HandleGetRecord(kind, key);
          if answer.Some? {
            return answer;
          }
        }
        assert PeerStores()[i..][1..] == PeerStores()[i + 1..] && up[i..][1..] == up[i + 1..];
        i := i + 1;
      }
      return None;
    }

    /** The deduplicated union of the own keys and those of the peers that answer. */
    method Keys(kind: string, up: seq<bool>) returns (result: seq<string>)
      requires |up| == |peers|
      ensures NoDups(result)
      ensures forall k :: k in result <==> Listed(store, PeerStores(), up, kind, k)
    {
      var own := HandleGetKeys(kind);
      var seen: set<string> := set k | k in own;
      var i := 0;
      while i < |peers|
        invariant 0 <= i <= |peers|
        invariant forall k :: k in seen <==> Listed(store, PeerStores()[..i], up[..i], kind, k)
      {
        ghost var before := seen;
        if up[i] {
          var keys := peers[i].HandleGetKeys(kind);
          seen := seen + set k | k in keys;
        }
        forall k ensures k in seen <==> Listed(store, PeerStores()[..i + 1], up[..i + 1], kind, k) {
          ListedExtends(store, PeerStores(), up, i, kind, k);
        }
        i := i + 1;
      }
      assert PeerStores()[..i] == PeerStores() && up[..i] == up;
      result := SetToSeq(seen);
    }
  }

  lemma ListedExtends(own: map<string, Record>, peers: seq<map<string, Record>>, up: seq<bool>, i: nat, kind: string, k: string)
    requires |up| == |peers| && i < |peers|
    ensures Listed(own, peers[..i + 1], up[..i + 1], kind, k) <==>
            Listed(own, peers[..i], up[..i], kind, k) || (up[i] && k != "" && StoreKey(kind, k) in peers[i])
  {
    var sk := StoreKey(kind, k);
    if Listed(own, peers[..i], up[..i], kind, k) && sk !in own {
      var j :| 0 <= j < i && up[..i][j] && sk in peers[..i][j];
      assert up[..i + 1][j] && sk in peers[..i + 1][j];
    }
    if up[i] && k != "" && sk in peers[i] {
      assert up[..i + 1][i] && sk in peers[..i + 1][i];
    }
    if Listed(own, peers[..i + 1], up[..i + 1], kind, k) && sk !in own {
      var j :| 0 <= j < i + 1 && up[..i + 1][j] && sk in peers[..i + 1][j];
      if j < i {
        assert up[..i][j] && sk in peers[..i][j];
      }
    }
  }

  /** Go's iteration over a set-like map: each element once, in any order. */
  method SetToSeq(s: set<string>) returns (r: seq<string>)
    ensures NoDups(r)
    ensures forall k :: k in r <==> k in s
  {
    r := [];
    var rest := s;
    while rest != {}
      invariant rest <= s && NoDups(r)
      invariant forall k :: k in r <==> k in s - rest
      decreases rest
    {
      var k :| k in rest;
      assert k !in r;
      r := r + [k];
      rest := rest - {k};
    }
  }

  /** Applying incoming records one after another. */
  function GuardedAll(store: map<string, Record>, recs: seq<Record>): (s: map<string, Record>) {
    if recs == [] then store
    else Guarded(GuardedAll(store, recs[..|recs| - 1]), recs[|recs| - 1])
  }

  ghost predicate Offered(store: map<string, Record>, recs: seq<Record>, sk: string, r: Record) {
    (sk in store && store[sk] == r) || (r in recs && StoreKey(r.kind, r.key) == sk)
  }

  /** `out` holds, under each key that was offered a record, one with the greatest version. */
  ghost predicate IsMerge(store: map<string, Record>, recs: seq<Record>, out: map<string, Record>) {
    forall sk ::
      && (sk in out <==> exists r :: Offered(store, recs, sk, r))
      && (sk in out ==> Offered(store, recs, sk, out[sk]))
      && (forall r :: Offered(store, recs, sk, r) ==> sk in out && AtMost(r.version, out[sk].version))
  }

  lemma MergeOne(store: map<string, Record>, recs: seq<Record>, out: map<string, Record>, x: Record)
    requires IsMerge(store, recs, out)
    ensures IsMerge(store, recs + [x], Guarded(out, x))
  {
    var out' := Guarded(out, x);
    forall sk
      ensures sk in out' <==> exists r :: Offered(store, recs + [x], sk, r)
      ensures sk in out' ==> Offered(store, recs + [x], sk, out'[sk])
      ensures forall r :: Offered(store, recs + [x], sk, r) ==> sk in out' && AtMost(r.version, out'[sk].version)
    {
      MergeOneAt(store, recs, out, x, sk);
    }
  }

  lemma MergeOneAt(store: map<string, Record>, recs: seq<Record>, out: map<string, Record>, x: Record, sk: string)
    requires IsMerge(store, recs, out)
    ensures var out' := Guarded(out, x);
            && (sk in out' <==> exists r :: Offered(store, recs + [x], sk, r))
            && (sk in out' ==> Offered(store, recs + [x], sk, out'[sk]))
            && (forall r :: Offered(store, recs + [x], sk, r) ==> sk in out' && AtMost(r.version, out'[sk].version))
  {
    var out' := Guarded(out, x);
    forall r | Offered(store, recs + [x], sk, r) ensures sk in out' && AtMost(r.version, out'[sk].version) {
      if Offered(store, recs, sk, r) {
        if out'[sk] != out[sk] {
          NewerGivesAtMost(x.version, out[sk].version);
          AtMostTransitive(r.version, out[sk].version, out'[sk].version);
        }
      } else {
        assert r == x;
        AtMostReflexive(x.version);
      }
    }
    if sk in out' {
      assert Offered(store, recs + [x], sk, out'[sk]) by {
        if out'[sk] == x && sk == StoreKey(x.kind, x.key) { assert x in recs + [x]; }
        else { assert Offered(store, recs, sk, out[sk]); }
      }
    }
  }

  /** A sequence of guarded writes computes the greatest version at every key. */
  lemma {:induction false} GuardedAllMerges(store: map<string, Record>, recs: seq<Record>)
    ensures IsMerge(store, recs, GuardedAll(store, recs))
  {
    if recs == [] {
      forall sk | sk in store { AtMostReflexive(store[sk].version); }
      forall sk ensures sk in store <==> exists r :: Offered(store, recs, sk, r) {
        if sk in store { assert Offered(store, recs, sk, store[sk]); }
      }
    } else {
      var front := recs[..|recs| - 1];
      GuardedAllMerges(store, front);
      MergeOne(store, front, GuardedAll(store, front), recs[|recs| - 1]);
      assert recs == front + [recs[|recs| - 1]];
    }
  }

  /** A stored record gives way only to a strictly newer one: it stays if none of the incoming
      records of its key is newer. */
  lemma {:induction false} StoredStays(store: map<string, Record>, recs: seq<Record>, sk: string)
    requires sk in store && forall j :: 0 <= j < |recs| && StoreKey(recs[j].kind, recs[j].key) == sk ==> !Newer(recs[j].version, store[sk].version)
    ensures Lookup(GuardedAll(store, recs), sk) == Some(store[sk])
  {
    if recs != [] {
      var n := |recs| - 1;
      forall j | 0 <= j < n && StoreKey(recs[..n][j].kind, recs[..n][j].key) == sk ensures !Newer(recs[..n][j].version, store[sk].version) {
        assert recs[..n][j] == recs[j];
      }
      StoredStays(store, recs[..n], sk);
    }
  }

  lemma {:induction false} GuardedAllConcat(store: map<string, Record>, xs: seq<Record>, ys: seq<Record>)
    ensures GuardedAll(store, xs + ys) == GuardedAll(GuardedAll(store, xs), ys)
  {
    if ys == [] {
      assert xs + ys == xs;
    } else {
      var front := ys[..|ys| - 1];
      assert (xs + ys)[..|xs + ys| - 1] == xs + front;
      GuardedAllConcat(store, xs, front);
    }
  }

  /** Among equal versions the first to arrive stays: a record newer than everything before it
      under its key, and not older than anything after it, is the one stored in the end. */
  lemma FirstOfEqualsStays(store: map<string, Record>, recs: seq<Record>, i: nat)
    requires i < |recs|
    requires var sk := StoreKey(recs[i].kind, recs[i].key);
             && (sk in store ==> Newer(recs[i].version, store[sk].version))
             && (forall j :: 0 <= j < i && StoreKey(recs[j].kind, recs[j].key) == sk ==> Newer(recs[i].version, recs[j].version))
             && (forall j :: i < j < |recs| && StoreKey(recs[j].kind, recs[j].key) == sk ==> !Newer(recs[j].version, recs[i].version))
    ensures Lookup(GuardedAll(store, recs), StoreKey(recs[i].kind, recs[i].key)) == Some(recs[i])
  {
    hide GuardedAll, StoreKey;
    var sk, r := StoreKey(recs[i].kind, recs[i].key), recs[i];
    var before, after := recs[..i], recs[i + 1..];
    assert recs == (before + [r]) + after && recs[..i + 1] == before + [r];
    GuardedAllConcat(store, before + [r], after);
    GuardedAllMerges(store, before);
    NewestArrives(store, before, r);
    forall j | 0 <= j < |after| && StoreKey(after[j].kind, after[j].key) == sk ensures !Newer(after[j].version, r.version) {
      assert after[j] == recs[i + 1 + j];
    }
    StoredStays(GuardedAll(store, before + [r]), after, sk);
  }

  lemma NewestArrives(store: map<string, Record>, before: seq<Record>, r: Record)
    requires IsMerge(store, before, GuardedAll(store, before))
    requires var sk := StoreKey(r.kind, r.key);
             && (sk in store ==> Newer(r.version, store[sk].version))
             && (forall j :: 0 <= j < |before| && StoreKey(before[j].kind, before[j].key) == sk ==> Newer(r.version, before[j].version))
    ensures Lookup(GuardedAll(store, before + [r]), StoreKey(r.kind, r.key)) == Some(r)
  {
    var sk, out := StoreKey(r.kind, r.key), GuardedAll(store, before);
    assert (before + [r])[..|before|] == before;
    if sk in out {
      assert Offered(store, before, sk, out[sk]);
    }
  }

  /** Reordering or duplicating incoming records changes no stored version, and no
      stored record either when a version identifies its record. */
  lemma MergeOrderIndependent(store: map<string, Record>, xs: seq<Record>, ys: seq<Record>, sk: string)
    requires forall r :: r in xs <==> r in ys
    ensures var a, b := GuardedAll(store, xs), GuardedAll(store, ys);
            && (sk in a <==> sk in b)
            && (sk in a ==> a[sk].version == b[sk].version)
            && ((forall r, q :: Offered(store, xs, sk, r) && Offered(store, xs, sk, q) && r.version == q.version ==> r == q)
                ==> Lookup(a, sk) == Lookup(b, sk))
            && ((forall r, q :: Offered(store, xs, sk, r) && Offered(store, xs, sk, q) && r.version == q.version ==> r.blobs == q.blobs)
                ==> sk in a ==> a[sk].blobs == b[sk].blobs)
  {
    var a, b := GuardedAll(store, xs), GuardedAll(store, ys);
    GuardedAllMerges(store, xs);
    GuardedAllMerges(store, ys);
    assert forall r :: Offered(store, xs, sk, r) <==> Offered(store, ys, sk, r);
    if sk in a && sk in b {
      AtMostAntisymmetric(a[sk].version, b[sk].version);
    }
  }
}
