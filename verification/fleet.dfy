/** A fleet of nodes over one shared store, ticking one at a time in any order without
    errors and with unchanging inputs: what the store and the files converge to. */
module Fleet {
  import opened Versions
  import opened AtomicFile
  import opened Bundles
  import opened Providers
  import opened Engine
  import opened TickLaws

  type Node = nat

  datatype Member = Member(cfg: Config, locals: map<string, Record>, files: Files)

  datatype State = State(records: map<string, Record>, members: map<Node, Member>)

  /** Node n ticks, visiting `keys`. */
  datatype Turn = Turn(n: Node, keys: seq<string>)

  ghost predicate WellFormed(s: State) {
    && Keyed(s.records)
    && forall n :: n in s.members ==> Keyed(s.members[n].locals) && Separate(s.members[n].cfg)
  }

  /** The keys are what gatherKeys yields: each local or stored key once, in any order. */
  ghost predicate Proper(s: State, t: Turn) {
    && t.n in s.members && NoDups(t.keys)
    && forall k :: k in t.keys <==> k in s.members[t.n].locals || k in s.records
  }

  function Visited(s: State, t: Turn): TickState
    requires t.n in s.members
  {
    var m := s.members[t.n];
    VisitAll(m.cfg, m.locals, CALM, TickState(s.records, m.files, []), t.keys)
  }

  /** The hook succeeds, so nothing is rolled back. */
  function Next(s: State, t: Turn): State {
    if t.n in s.members
    then State(Visited(s, t).records, s.members[t.n := s.members[t.n].(files := Visited(s, t).files)])
    else s
  }

  function Run(s: State, turns: seq<Turn>): State {
    if turns == [] then s else Next(Run(s, turns[..|turns| - 1]), turns[|turns| - 1])
  }

  ghost predicate ProperRun(s: State, turns: seq<Turn>) {
    forall i :: 0 <= i < |turns| ==> Proper(Run(s, turns[..i]), turns[i])
  }

  /** A key of the store after one calm visit: the newer of the stored and the local
      copy, a tie keeping the stored one. */
  function Merged(records: map<string, Record>, locals: map<string, Record>, k: string): Option<Record> {
    PickNewer(Lookup(locals, k), Lookup(records, k))
  }

  lemma TickRecords(s: State, t: Turn, k: string)
    requires WellFormed(s) && Proper(s, t)
    ensures Lookup(Next(s, t).records, k) == Merged(s.records, s.members[t.n].locals, k)
  {
    hide Separate, SameArea, WriteAll, Writes, Newer;
    var m := s.members[t.n];
    var ts := TickState(s.records, m.files, []);
    if k in t.keys {
      VisitAllAt(m.cfg, m.locals, CALM, ts, t.keys, k);
      assert Lookup(VisitKey(m.cfg, m.locals, CALM, ts, k).records, k) == Merged(s.records, m.locals, k);
    } else {
      VisitAllOther(m.cfg, m.locals, CALM, ts, t.keys, k);
    }
  }

  lemma WellFormedStep(s: State, t: Turn)
    requires WellFormed(s)
    ensures WellFormed(Next(s, t))
    ensures Next(s, t).members.Keys == s.members.Keys
    ensures forall n :: n in s.members ==> Next(s, t).members[n].locals == s.members[n].locals && Next(s, t).members[n].cfg == s.members[n].cfg
  {
    if t.n in s.members {
      var m := s.members[t.n];
      VisitAllKeyed(m.cfg, m.locals, CALM, TickState(s.records, m.files, []), t.keys);
    }
  }

  /** Inputs never change: same nodes, settings and local records. */
  predicate SameInputs(a: State, b: State) {
    && a.members.Keys == b.members.Keys
    && forall n :: n in a.members ==> a.members[n].locals == b.members[n].locals && a.members[n].cfg == b.members[n].cfg
  }

  lemma {:induction false} WellFormedRun(s: State, turns: seq<Turn>)
    requires WellFormed(s)
    ensures WellFormed(Run(s, turns)) && SameInputs(s, Run(s, turns))
  {
    if turns != [] {
      WellFormedRun(s, turns[..|turns| - 1]);
      WellFormedStep(Run(s, turns[..|turns| - 1]), turns[|turns| - 1]);
    }
  }

  lemma ProperFront(s: State, turns: seq<Turn>)
    requires turns != [] && ProperRun(s, turns)
    ensures ProperRun(s, turns[..|turns| - 1]) && Proper(Run(s, turns[..|turns| - 1]), turns[|turns| - 1])
  {
    var front := turns[..|turns| - 1];
    forall i | 0 <= i < |front| ensures Proper(Run(s, front[..i]), front[i]) {
      assert front[..i] == turns[..i];
    }
  }

  lemma HoldsStep(s: State, t: Turn, k: string, v: Version)
    requires WellFormed(s) && Proper(s, t) && Holds(s.records, k, v)
    ensures Holds(Next(s, t).records, k, v)
  {
    TickRecords(s, t, k);
    var local := Lookup(s.members[t.n].locals, k);
    PickNewerIsMaximum(local, Lookup(s.records, k));
    AtMostTransitive(v, s.records[k].version, Next(s, t).records[k].version);
  }

  /** Where a stored record comes from. */
  ghost predicate FromSomewhere(s: State, k: string, r: Record) {
    (k in s.records && s.records[k] == r) || exists n :: n in s.members && k in s.members[n].locals && s.members[n].locals[k] == r
  }

  /** After a run each stored record was in the store or is a local one, nothing stored
      before has been replaced by something older, and every node that has ticked has
      all its local records covered. */
  lemma {:induction false} RecordsRun(s: State, turns: seq<Turn>, k: string)
    requires WellFormed(s) && ProperRun(s, turns)
    ensures var out := Run(s, turns).records;
            && (k in out ==> FromSomewhere(s, k, out[k]))
            && (k in s.records ==> Holds(out, k, s.records[k].version))
            && (forall i :: 0 <= i < |turns| && turns[i].n in s.members && k in s.members[turns[i].n].locals ==>
                  Holds(out, k, s.members[turns[i].n].locals[k].version))
  {
    hide Next, ProperRun, AtMost;
    if turns == [] {
      if k in s.records { AtMostReflexive(s.records[k].version); }
    } else {
      var front, last := turns[..|turns| - 1], turns[|turns| - 1];
      ProperFront(s, turns);
      RecordsRun(s, front, k);
      WellFormedRun(s, front);
      var mid := Run(s, front);
      TickRecords(mid, last, k);
      if k in s.records {
        HoldsStep(mid, last, k, s.records[k].version);
      }
      forall i | 0 <= i < |turns| && turns[i].n in s.members && k in s.members[turns[i].n].locals
        ensures Holds(Next(mid, last).records, k, s.members[turns[i].n].locals[k].version)
      {
        if i < |front| {
          assert front[i] == turns[i];
          HoldsStep(mid, last, k, s.members[turns[i].n].locals[k].version);
        } else {
          PickNewerIsMaximum(Lookup(mid.members[last.n].locals, k), Lookup(mid.records, k));
        }
      }
    }
  }

  ghost predicate EveryoneTicks(s: State, turns: seq<Turn>) {
    forall n :: n in s.members ==> exists i :: 0 <= i < |turns| && turns[i].n == n
  }

  /** v is the greatest version of k among the store and all local copies. */
  ghost predicate Greatest(s: State, k: string, v: Version) {
    && (exists r :: FromSomewhere(s, k, r) && r.version == v)
    && forall r :: FromSomewhere(s, k, r) ==> AtMost(r.version, v)
  }

  /** First round: once every node has ticked, in any order, the store holds at each key
      the maximum of its old copy and all local copies, and no other keys. */
  lemma FirstRound(s: State, turns: seq<Turn>, k: string)
    requires WellFormed(s) && ProperRun(s, turns) && EveryoneTicks(s, turns)
    ensures var out := Run(s, turns).records;
            && (k in out <==> exists r :: FromSomewhere(s, k, r))
            && (k in out ==> Greatest(s, k, out[k].version))
  {
    var out := Run(s, turns).records;
    RecordsRun(s, turns, k);
    forall r | FromSomewhere(s, k, r) ensures Holds(out, k, r.version) {
      if !(k in s.records && s.records[k] == r) {
        var n :| n in s.members && k in s.members[n].locals && s.members[n].locals[k] == r;
        var i :| 0 <= i < |turns| && turns[i].n == n;
      }
    }
  }

  /** No node has anything newer than the store. */
  ghost predicate AllPublished(s: State) {
    forall n, k :: n in s.members && k in s.members[n].locals ==> Holds(s.records, k, s.members[n].locals[k].version)
  }

  lemma FirstRoundPublishes(s: State, turns: seq<Turn>)
    requires WellFormed(s) && ProperRun(s, turns) && EveryoneTicks(s, turns)
    ensures AllPublished(Run(s, turns))
  {
    var out := Run(s, turns);
    WellFormedRun(s, turns);
    forall n, k | n in out.members && k in out.members[n].locals ensures Holds(out.records, k, out.members[n].locals[k].version) {
      RecordsRun(s, turns, k);
      var i :| 0 <= i < |turns| && turns[i].n == n;
    }
  }

  /** The node's files are those of every record in the store. */
  ghost predicate UpToDate(s: State, n: Node)
    requires n in s.members
  {
    forall k :: k in s.records ==> Serves(s.members[n].files, Writes(s.members[n].cfg, s.records[k]))
  }

  /** With everything published a tick picks, for every key, the stored record. */
  lemma StoredWins(s: State, n: Node, k: string)
    requires AllPublished(s) && n in s.members
    ensures Best(s.members[n].locals, s.records, CALM, k) == Lookup(s.records, k)
  {
  }

  lemma RecordsStay(s: State, t: Turn)
    requires WellFormed(s) && Proper(s, t) && AllPublished(s)
    ensures Next(s, t).records == s.records
  {
    forall k ensures Lookup(Next(s, t).records, k) == Lookup(s.records, k) {
      TickRecords(s, t, k);
      StoredWins(s, t.n, k);
    }
    SameLookups(Next(s, t).records, s.records);
  }

  /** Second round, one node: its tick applies exactly the cluster's records. */
  lemma TickBringsUpToDate(s: State, t: Turn)
    requires WellFormed(s) && Proper(s, t) && AllPublished(s)
    ensures Next(s, t).records == s.records && UpToDate(Next(s, t), t.n)
  {
    RecordsStay(s, t);
    var m := s.members[t.n];
    var ts := TickState(s.records, m.files, []);
    forall k | k in s.records ensures Serves(Next(s, t).members[t.n].files, Writes(m.cfg, s.records[k])) {
      var ws := Writes(m.cfg, s.records[k]);
      StoredWins(s, t.n, k);
      VisitAllAt(m.cfg, m.locals, CALM, ts, t.keys, k);
      AppliedServes(m.files, ws, m.cfg, s.records[k]);
      WritesInside(m.cfg, s.records[k]);
      assert s.records[k].key == k;
      assert VisitKey(m.cfg, m.locals, CALM, ts, k).files == WriteAll(m.files, ws, map[]).files;
    }
  }

  lemma {:induction false} ServedUnchanged(files: Files, ws: seq<(Path, Bytes)>)
    requires Serves(files, ws)
    ensures WriteAll(files, ws, map[]) == WriteResult(files, false, true)
  {
    if ws != [] {
      var front := ws[..|ws| - 1];
      assert Serves(files, front) by {
        forall i | 0 <= i < |front| ensures Lookup(files, front[i].0) == Some(front[i].1) { assert ws[i] == front[i]; }
      }
      ServedUnchanged(files, front);
      assert Lookup(files, ws[|ws| - 1].0) == Some(ws[|ws| - 1].1);
    }
  }

  lemma {:induction false} VisitAllIdle(s: State, n: Node, keys: seq<string>)
    requires WellFormed(s) && AllPublished(s) && n in s.members && UpToDate(s, n)
    ensures var m := s.members[n];
            VisitAll(m.cfg, m.locals, CALM, TickState(s.records, m.files, []), keys) == TickState(s.records, m.files, [])
  {
    if keys != [] {
      var k := keys[|keys| - 1];
      VisitAllIdle(s, n, keys[..|keys| - 1]);
      StoredWins(s, n, k);
      if k in s.records {
        ServedUnchanged(s.members[n].files, Writes(s.members[n].cfg, s.records[k]));
      }
    }
  }

  /** Stability: with everything published and the node up to date, its tick publishes
      nothing, changes no file and has nothing to flush. */
  lemma TickIdle(s: State, t: Turn)
    requires WellFormed(s) && Proper(s, t) && AllPublished(s) && UpToDate(s, t.n)
    ensures Next(s, t) == s && Visited(s, t).changed == []
  {
    VisitAllIdle(s, t.n, t.keys);
    assert s.members[t.n := s.members[t.n]] == s.members;
  }

  lemma PublishedSame(a: State, b: State)
    requires AllPublished(a) && SameInputs(a, b) && a.records == b.records
    ensures AllPublished(b)
  {
  }

  /** During the second round the store stays put and nodes that have ticked stay up to date. */
  lemma {:induction false} SecondRoundRun(s: State, turns: seq<Turn>)
    requires WellFormed(s) && AllPublished(s) && ProperRun(s, turns)
    ensures var out := Run(s, turns);
            && out.records == s.records && AllPublished(out) && WellFormed(out) && SameInputs(s, out)
            && forall i :: 0 <= i < |turns| ==> turns[i].n in out.members && UpToDate(out, turns[i].n)
  {
    hide Next, UpToDate, AllPublished, WellFormed, ProperRun;
    WellFormedRun(s, turns);
    if turns != [] {
      var front, last := turns[..|turns| - 1], turns[|turns| - 1];
      ProperFront(s, turns);
      SecondRoundRun(s, front);
      var mid := Run(s, front);
      TickBringsUpToDate(mid, last);
      PublishedSame(s, Next(mid, last));
      forall i | 0 <= i < |turns| ensures turns[i].n in Next(mid, last).members && UpToDate(Next(mid, last), turns[i].n) {
        if turns[i].n != last.n {
          assert front[i] == turns[i];
          StaysUpToDate(mid, last, turns[i].n);
        }
      }
    }
  }

  lemma StaysUpToDate(s: State, t: Turn, n: Node)
    requires n in s.members && n != t.n && UpToDate(s, n) && Next(s, t).records == s.records
    ensures n in Next(s, t).members && UpToDate(Next(s, t), n)
  {
    assert Next(s, t).members[n] == s.members[n];
  }

  /** Everything is published and every node is up to date. */
  ghost predicate Stable(s: State) {
    WellFormed(s) && AllPublished(s) && forall n :: n in s.members ==> UpToDate(s, n)
  }

  lemma {:induction false} RunConcat(s: State, xs: seq<Turn>, ys: seq<Turn>)
    ensures Run(s, xs + ys) == Run(Run(s, xs), ys)
  {
    if ys == [] {
      assert xs + ys == xs;
    } else {
      assert (xs + ys)[..|xs + ys| - 1] == xs + ys[..|ys| - 1];
      RunConcat(s, xs, ys[..|ys| - 1]);
    }
  }

  lemma ProperTail(s: State, xs: seq<Turn>, ys: seq<Turn>)
    requires ProperRun(s, xs + ys)
    ensures ProperRun(s, xs) && ProperRun(Run(s, xs), ys)
  {
    forall i | 0 <= i < |xs| ensures Proper(Run(s, xs[..i]), xs[i]) {
      assert (xs + ys)[..i] == xs[..i] && (xs + ys)[i] == xs[i];
    }
    forall i | 0 <= i < |ys| ensures Proper(Run(Run(s, xs), ys[..i]), ys[i]) {
      assert (xs + ys)[..|xs| + i] == xs + ys[..i] && (xs + ys)[|xs| + i] == ys[i];
      RunConcat(s, xs, ys[..i]);
    }
  }

  /** Convergence: after two rounds, in any order, the fleet is stable. */
  lemma TwoRoundsSettle(s: State, xs: seq<Turn>, ys: seq<Turn>)
    requires WellFormed(s) && ProperRun(s, xs + ys) && EveryoneTicks(s, xs) && EveryoneTicks(s, ys)
    ensures Stable(Run(s, xs + ys)) && Run(s, xs + ys).records == Run(s, xs).records
  {
    ProperTail(s, xs, ys);
    RunConcat(s, xs, ys);
    WellFormedRun(s, xs);
    FirstRoundPublishes(s, xs);
    var mid := Run(s, xs);
    SecondRoundRun(mid, ys);
    var out := Run(mid, ys);
    forall n | n in out.members ensures UpToDate(out, n) {
      assert n in s.members;
      var i :| 0 <= i < |ys| && ys[i].n == n;
      assert UpToDate(out, ys[i].n);
    }
  }

  lemma {:induction false} StableStays(s: State, turns: seq<Turn>)
    requires Stable(s) && ProperRun(s, turns)
    ensures Run(s, turns) == s
  {
    if turns != [] {
      ProperFront(s, turns);
      StableStays(s, turns[..|turns| - 1]);
      TickIdle(s, turns[|turns| - 1]);
    }
  }

  /** Every later tick of a stable fleet publishes nothing, changes no file and flushes
      nothing, however many follow. */
  lemma StableForever(s: State, turns: seq<Turn>, i: nat)
    requires Stable(s) && ProperRun(s, turns) && i < |turns|
    ensures Run(s, turns[..i + 1]) == Run(s, turns[..i]) == s
    ensures turns[i].n in s.members && Visited(s, turns[i]).changed == []
  {
    var now := turns[..i];
    assert ProperRun(s, now) by {
      forall j | 0 <= j < |now| ensures Proper(Run(s, now[..j]), now[j]) { assert now[..j] == turns[..j]; }
    }
    StableStays(s, now);
    TickIdle(s, turns[i]);
    assert turns[..i + 1][..i] == now;
  }
}
