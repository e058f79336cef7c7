/** The key index that the LAN store keeps beside the records of a kind: a list under a
    reserved key of the same map, extended by read-modify-write under a lock. */
module Index {
  import opened Versions

  const INDEX_KEY := "__lbsync_index__"
  const INDEX_LOCK_KEY := "__lbsync_index_lock__"
  const LOCK_PREFIX := "__lbsync_lock__:"

  type Proc = nat

  /** What the map holds under a key: a record, the index, or a lock taken by a process. */
  datatype Value = Rec(rec: Record) | Keys(keys: seq<string>) | Token(holder: Proc)

  predicate DataKey(k: string) {
    k != INDEX_KEY && k != INDEX_LOCK_KEY && !(LOCK_PREFIX <= k)
  }

  predicate Stored(dm: map<string, Value>, k: string) {
    DataKey(k) && k in dm && dm[k].Rec?
  }

  function IndexOf(dm: map<string, Value>): seq<string> {
    if INDEX_KEY in dm && dm[INDEX_KEY].Keys? then dm[INDEX_KEY].keys else []
  }

  /** Where a call of Put is: its record written, the lock asked for, the index read
      without finding the key, and the deferred unlock. */
  datatype Phase =
    | Ready
    | Written(key: string)
    | Reading(key: string, held: bool)
    | Extending(key: string, held: bool, list: seq<string>)
    | Unlocking(held: bool)

  datatype State = State(dm: map<string, Value>, procs: map<Proc, Phase>)

  /** `ok` tells whether the operation succeeds; a failed lock attempt does not stop the
      update, a failed read or write ends it. */
  datatype Step =
    | PutRecord(p: Proc, r: Record)
    | Lock(p: Proc, ok: bool)
    | Read(p: Proc, ok: bool)
    | Write(p: Proc, ok: bool)
    | Unlock(p: Proc)
    | Expire

  function ReadIndex(ph: Phase, list: seq<string>, ok: bool): Phase
    requires ph.Reading?
  {
    if !ok || ph.key in list then Unlocking(ph.held) else Extending(ph.key, ph.held, list)
  }

  function PhaseAfter(s: State, step: Step): Phase
    requires !step.Expire? && step.p in s.procs
  {
    var ph := s.procs[step.p];
    match step
    case PutRecord(_, r) => if ph.Ready? && DataKey(r.key) then Written(r.key) else ph
    case Lock(_, ok) =>
      if ph.Written? && (!ok || INDEX_LOCK_KEY !in s.dm) then Reading(ph.key, ok) else ph
    case Read(_, ok) => if ph.Reading? then ReadIndex(ph, IndexOf(s.dm), ok) else ph
    case Write(_, _) => if ph.Extending? then Unlocking(ph.held) else ph
    case Unlock(_) => if ph.Unlocking? then Ready else ph
  }

  function MapAfter(s: State, step: Step): map<string, Value>
    requires !step.Expire? && step.p in s.procs
  {
    var ph := s.procs[step.p];
    match step
    case PutRecord(_, r) => if ph.Ready? && DataKey(r.key) then s.dm[r.key := Rec(r)] else s.dm
    case Lock(p, ok) => if ph.Written? && ok && INDEX_LOCK_KEY !in s.dm then s.dm[INDEX_LOCK_KEY := Token(p)] else s.dm
    case Read(_, _) => s.dm
    case Write(_, ok) => if ph.Extending? && ok then s.dm[INDEX_KEY := Keys(ph.list + [ph.key])] else s.dm
    case Unlock(p) =>
      if ph.Unlocking? && ph.held && INDEX_LOCK_KEY in s.dm && s.dm[INDEX_LOCK_KEY] == Token(p)
      then s.dm - {INDEX_LOCK_KEY} else s.dm
  }

  function Next(s: State, step: Step): State {
    if step.Expire? then s.(dm := s.dm - {INDEX_LOCK_KEY})
    else if step.p in s.procs then State(MapAfter(s, step), s.procs[step.p := PhaseAfter(s, step)])
    else s
  }

  function Run(s: State, steps: seq<Step>): State {
    if steps == [] then s
    else Next(Run(s, steps[..|steps| - 1]), steps[|steps| - 1])
  }

  predicate Init(s: State) {
    s.dm == map[] && forall p :: p in s.procs ==> s.procs[p].Ready?
  }

  predicate AllStored(dm: map<string, Value>, keys: seq<string>) {
    forall i :: 0 <= i < |keys| ==> Stored(dm, keys[i])
  }

  predicate PhaseSafe(dm: map<string, Value>, ph: Phase) {
    match ph
    case Written(key) => Stored(dm, key)
    case Reading(key, _) => Stored(dm, key)
    case Extending(key, _, list) => Stored(dm, key) && key !in list && NoDups(list) && AllStored(dm, list)
    case _ => true
  }

  predicate Safe(s: State) {
    && (INDEX_KEY in s.dm ==> s.dm[INDEX_KEY].Keys?)
    && NoDups(IndexOf(s.dm)) && AllStored(s.dm, IndexOf(s.dm))
    && forall p :: p in s.procs ==> PhaseSafe(s.dm, s.procs[p])
  }

  /** No step unstores a key. */
  lemma StoredStep(s: State, step: Step, k: string)
    requires Stored(s.dm, k)
    ensures Stored(Next(s, step).dm, k)
  {
  }

  lemma PhaseSafeStep(s: State, step: Step, ph: Phase)
    requires PhaseSafe(s.dm, ph)
    ensures PhaseSafe(Next(s, step).dm, ph)
  {
    if ph.Written? || ph.Reading? || ph.Extending? {
      StoredStep(s, step, ph.key);
    }
    if ph.Extending? {
      forall i | 0 <= i < |ph.list| { StoredStep(s, step, ph.list[i]); }
    }
  }

  lemma IndexSafeStep(s: State, step: Step)
    requires Safe(s)
    ensures var dm := Next(s, step).dm;
            (INDEX_KEY in dm ==> dm[INDEX_KEY].Keys?) && NoDups(IndexOf(dm)) && AllStored(dm, IndexOf(dm))
  {
    var dm := Next(s, step).dm;
    forall i | 0 <= i < |IndexOf(s.dm)| { StoredStep(s, step, IndexOf(s.dm)[i]); }
    if step.Write? && step.p in s.procs && s.procs[step.p].Extending? && step.ok {
      assert PhaseSafe(s.dm, s.procs[step.p]);
    }
  }

  lemma MovedSafe(s: State, step: Step)
    requires Safe(s) && !step.Expire? && step.p in s.procs
    ensures PhaseSafe(Next(s, step).dm, PhaseAfter(s, step))
  {
    assert PhaseSafe(s.dm, s.procs[step.p]);
    PhaseSafeStep(s, step, s.procs[step.p]);
  }

  lemma SafeStep(s: State, step: Step)
    requires Safe(s)
    ensures Safe(Next(s, step))
  {
    IndexSafeStep(s, step);
    forall p | p in Next(s, step).procs ensures PhaseSafe(Next(s, step).dm, Next(s, step).procs[p]) {
      PhaseSafeStep(s, step, s.procs[p]);
      if !step.Expire? && step.p == p {
        MovedSafe(s, step);
      }
    }
  }

  /** Index safety in every interleaving, locked or not, with any failures: the index
      has no duplicates and names only keys that hold a record. */
  lemma {:induction false} IndexAlwaysSafe(s0: State, steps: seq<Step>)
    requires Init(s0)
    ensures Safe(Run(s0, steps))
  {
    if steps != [] {
      IndexAlwaysSafe(s0, steps[..|steps| - 1]);
      SafeStep(Run(s0, steps[..|steps| - 1]), steps[|steps| - 1]);
    }
  }

  /** The lock is always obtained and held, and reads and writes succeed. */
  predicate Orderly(steps: seq<Step>) {
    forall i :: 0 <= i < |steps| ==> OrderlyStep(steps[i])
  }

  predicate OrderlyStep(step: Step) {
    !step.Expire? && (step.Lock? || step.Read? || step.Write? ==> step.ok)
  }

  /** The call has written its record and not yet its index entry. */
  predicate Pending(ph: Phase, k: string) {
    (ph.Written? || ph.Reading? || ph.Extending?) && ph.key == k
  }

  predicate PhaseExclusive(dm: map<string, Value>, p: Proc, ph: Phase) {
    && (ph.Reading? || ph.Extending? || ph.Unlocking? ==>
        ph.held && INDEX_LOCK_KEY in dm && dm[INDEX_LOCK_KEY] == Token(p))
    && (ph.Extending? ==> ph.list == IndexOf(dm))
  }

  predicate Exclusive(s: State) {
    forall p :: p in s.procs ==> PhaseExclusive(s.dm, p, s.procs[p])
  }

  ghost predicate Complete(s: State) {
    forall k :: Stored(s.dm, k) <==> k in IndexOf(s.dm) || exists p :: p in s.procs && Pending(s.procs[p], k)
  }

  lemma ExclusiveStep(s: State, step: Step)
    requires Exclusive(s) && OrderlyStep(step)
    ensures Exclusive(Next(s, step))
  {
    forall p | p in Next(s, step).procs ensures PhaseExclusive(Next(s, step).dm, p, Next(s, step).procs[p]) {
      assert PhaseExclusive(s.dm, p, s.procs[p]);
      if step.p in s.procs {
        assert PhaseExclusive(s.dm, step.p, s.procs[step.p]);
      }
    }
  }

  lemma CompleteStepAt(s: State, step: Step, k: string)
    requires Safe(s) && Exclusive(s) && Complete(s) && OrderlyStep(step)
    ensures var s' := Next(s, step);
            Stored(s'.dm, k) <==> k in IndexOf(s'.dm) || exists p :: p in s'.procs && Pending(s'.procs[p], k)
  {
    var s' := Next(s, step);
    if step.p in s.procs {
      var q := step.p;
      assert PhaseExclusive(s.dm, q, s.procs[q]) && PhaseSafe(s.dm, s.procs[q]);
      SafeStep(s, step);
      if Stored(s.dm, k) {
        StoredStep(s, step, k);
        if k !in IndexOf(s.dm) {
          var p :| p in s.procs && Pending(s.procs[p], k);
          assert k in IndexOf(s'.dm) || Pending(s'.procs[p], k);
        }
      } else if Stored(s'.dm, k) {
        assert Pending(s'.procs[q], k);
      }
      if p :| p in s'.procs && Pending(s'.procs[p], k) {
        assert PhaseSafe(s'.dm, s'.procs[p]);
      }
      if k in IndexOf(s'.dm) {
        assert AllStored(s'.dm, IndexOf(s'.dm));
      }
    }
  }

  /** Index completeness under the lock: the stored keys are exactly the indexed keys
      plus those of calls between their record write and their index write. */
  lemma {:induction false} IndexComplete(s0: State, steps: seq<Step>)
    requires Init(s0) && Orderly(steps)
    ensures Complete(Run(s0, steps)) && Exclusive(Run(s0, steps))
  {
    if steps != [] {
      var front, last := steps[..|steps| - 1], steps[|steps| - 1];
      IndexComplete(s0, front);
      IndexAlwaysSafe(s0, front);
      ExclusiveStep(Run(s0, front), last);
      forall k
        ensures var s' := Next(Run(s0, front), last);
                Stored(s'.dm, k) <==> k in IndexOf(s'.dm) || exists p :: p in s'.procs && Pending(s'.procs[p], k)
      {
        CompleteStepAt(Run(s0, front), last, k);
      }
    }
  }

  /** What stands under the index key can be read as a list; nothing there counts as the empty list. */
  predicate Decodable(dm: map<string, Value>) {
    INDEX_KEY in dm ==> dm[INDEX_KEY].Keys?
  }

  /** The map after the key has been added to the index; an unreadable index stays as it is. */
  function Extended(dm: map<string, Value>, key: string): map<string, Value> {
    if !Decodable(dm) || key in IndexOf(dm) then dm else dm[INDEX_KEY := Keys(IndexOf(dm) + [key])]
  }

  /** What fails in a call of Put: the write of the record, the lock attempt, the read or
      the write of the index. */
  datatype Failures = Failures(put: bool, lock: bool, read: bool, write: bool)

  /** The update of the index ends without an error. */
  predicate IndexUpdated(dm: map<string, Value>, key: string, fs: Failures) {
    !fs.read && Decodable(dm) && (key in IndexOf(dm) || !fs.write)
  }

  /** The map after a Put in which something may fail. A record whose index update fails
      stays stored. */
  function PutWith(dm: map<string, Value>, r: Record, fs: Failures): map<string, Value> {
    if fs.put then dm
    else
      var stored := dm[r.key := Rec(r)];
      if IndexUpdated(stored, r.key, fs) then Extended(stored, r.key) else stored
  }

  /** The map after a whole Put in which nothing fails. */
  function PutDone(dm: map<string, Value>, r: Record): map<string, Value> {
    PutWith(dm, r, Failures(false, false, false, false))
  }

  /** One member's handle on a kind's map. */
  class Cluster {
    const me: Proc
    var dm: map<string, Value>

    constructor (me: Proc)
      ensures this.me == me && dm == map[]
    {
      this.me := me;
      dm := map[];
    }

    method Get(key: string, fails: bool) returns (r: Option<Record>)
      ensures r.Some? <==> !fails && key in dm && dm[key].Rec?
      ensures r.Some? ==> dm[key] == Rec(r.value)
    {
      if !fails && key in dm && dm[key].Rec? {
        r := Some(dm[key].rec);
      } else {
        r := None;
      }
    }

    /** Keys returns the index as it stands, or an error. */
    method ListKeys(fails: bool) returns (keys: Option<seq<string>>)
      ensures keys.Some? <==> !fails && Decodable(dm)
      ensures keys.Some? ==> keys.value == IndexOf(dm)
    {
      if fails {
        return None;
      }
      if INDEX_KEY !in dm {
        return Some([]);
      }
      match dm[INDEX_KEY] {
        case Keys(list) => return Some(list);
        case _ => return None;
      }
    }

    /** Best-effort lock, read, search, append, write, deferred unlock. A lock attempt
        that fails does not stop the update. */
    method AddToIndex(key: string, fs: Failures) returns (ok: bool)
      modifies this`dm
      ensures ok <==> IndexUpdated(old(dm), key, fs)
      ensures dm == if ok then Extended(old(dm), key) else old(dm)
    {
      var held := !fs.lock && INDEX_LOCK_KEY !in dm;
      ghost var before := dm;
      if held {
        dm := dm[INDEX_LOCK_KEY := Token(me)];
      }
      ok := UpdateIndex(key, fs);
      if held {
        dm := dm - {INDEX_LOCK_KEY};
        assert dm == if ok then Extended(before, key) else before;
      }
    }

    method UpdateIndex(key: string, fs: Failures) returns (ok: bool)
      modifies this`dm
      ensures ok <==> IndexUpdated(old(dm), key, fs)
      ensures dm == if ok then Extended(old(dm), key) else old(dm)
    {
      var keys := ListKeys(fs.read);
      if keys.None? {
        return false;
      }
      var i := 0;
      while i < |keys.value| && keys.value[i] != key
        invariant 0 <= i <= |keys.value| && key !in keys.value[..i]
      {
        i := i + 1;
      }
      assert keys.value[..|keys.value|] == keys.value;
      if i < |keys.value| {
        return true;
      }
      if fs.write {
        return false;
      }
      dm := dm[INDEX_KEY := Keys(keys.value + [key])];
      return true;
    }

    method Put(r: Record, fs: Failures) returns (ok: bool)
      modifies this`dm
      ensures ok <==> !fs.put && r.key != INDEX_KEY && IndexUpdated(old(dm), r.key, fs)
      ensures dm == PutWith(old(dm), r, fs)
    {
      if fs.put {
        return false;
      }
      dm := dm[r.key := Rec(r)];
      ok := AddToIndex(r.key, fs);
    }
  }

  /** The labels of one call. Those of a branch not taken are not enabled. */
  function PutSteps(p: Proc, r: Record, fs: Failures): seq<Step> {
    [PutRecord(p, r)] + [Lock(p, !fs.lock)] + [Read(p, !fs.read)] + [Write(p, !fs.write)] + [Unlock(p)]
  }

  lemma RunSnoc(s: State, xs: seq<Step>, x: Step)
    ensures Run(s, xs + [x]) == Next(Run(s, xs), x)
  {
    assert (xs + [x])[..|xs|] == xs;
  }

  lemma RunFive(s: State, a: Step, b: Step, c: Step, d: Step, e: Step)
    ensures Run(s, [a] + [b] + [c] + [d] + [e]) == Next(Next(Next(Next(Next(s, a), b), c), d), e)
  {
    assert Run(s, []) == s && [] + [a] == [a];
    RunSnoc(s, [], a);
    RunSnoc(s, [a], b);
    RunSnoc(s, [a] + [b], c);
    RunSnoc(s, [a] + [b] + [c], d);
    RunSnoc(s, [a] + [b] + [c] + [d], e);
  }

  /** From the lock to the unlock, with process p alone. */
  lemma IndexSteps(s: State, p: Proc, key: string, fs: Failures)
    requires p in s.procs && s.procs[p] == Written(key) && DataKey(key) && Decodable(s.dm)
    requires INDEX_LOCK_KEY in s.dm ==> fs.lock
    ensures Next(Next(Next(Next(s, Lock(p, !fs.lock)), Read(p, !fs.read)), Write(p, !fs.write)), Unlock(p))
            == State(if IndexUpdated(s.dm, key, fs) then Extended(s.dm, key) else s.dm, s.procs[p := Ready])
  {
    hide Next, Extended, IndexUpdated;
    LockAndRead(s, p, key, fs);
    WriteAndUnlock(s, p, key, fs);
  }

  /** The map while the call may hold the lock. */
  function LockedMap(dm: map<string, Value>, p: Proc, held: bool): map<string, Value> {
    if held then dm[INDEX_LOCK_KEY := Token(p)] else dm
  }

  lemma LockAndRead(s: State, p: Proc, key: string, fs: Failures)
    requires p in s.procs && s.procs[p] == Written(key) && (INDEX_LOCK_KEY in s.dm ==> fs.lock)
    ensures Next(Next(s, Lock(p, !fs.lock)), Read(p, !fs.read))
            == State(LockedMap(s.dm, p, !fs.lock), s.procs[p := ReadIndex(Reading(key, !fs.lock), IndexOf(s.dm), !fs.read)])
  {
    var held := !fs.lock;
    var s1 := Next(s, Lock(p, held));
    assert s1 == State(LockedMap(s.dm, p, held), s.procs[p := Reading(key, held)]);
    assert IndexOf(s1.dm) == IndexOf(s.dm);
  }

  lemma WriteAndUnlock(s: State, p: Proc, key: string, fs: Failures)
    requires p in s.procs && Decodable(s.dm) && (INDEX_LOCK_KEY in s.dm ==> fs.lock)
    ensures var t := State(LockedMap(s.dm, p, !fs.lock), s.procs[p := ReadIndex(Reading(key, !fs.lock), IndexOf(s.dm), !fs.read)]);
            Next(Next(t, Write(p, !fs.write)), Unlock(p))
            == State(if IndexUpdated(s.dm, key, fs) then Extended(s.dm, key) else s.dm, s.procs[p := Ready])
  {
    var held := !fs.lock;
    var locked := LockedMap(s.dm, p, held);
    assert IndexOf(locked) == IndexOf(s.dm);
    var t := State(locked, s.procs[p := ReadIndex(Reading(key, held), IndexOf(s.dm), !fs.read)]);
    var u := Next(t, Write(p, !fs.write));
    assert u == State(if IndexUpdated(s.dm, key, fs) then Extended(locked, key) else locked, s.procs[p := Unlocking(held)]);
    if held {
      assert u.dm - {INDEX_LOCK_KEY} == if IndexUpdated(s.dm, key, fs) then Extended(s.dm, key) else s.dm;
    }
  }

  /** The method is the steps of one call run together, whatever fails in it: same map,
      call finished. */
  lemma PutIsItsSteps(s: State, p: Proc, r: Record, fs: Failures)
    requires p in s.procs && s.procs[p].Ready? && DataKey(r.key) && Decodable(s.dm) && !fs.put
    requires INDEX_LOCK_KEY in s.dm ==> fs.lock
    ensures Run(s, PutSteps(p, r, fs)) == State(PutWith(s.dm, r, fs), s.procs)
  {
    RunFive(s, PutRecord(p, r), Lock(p, !fs.lock), Read(p, !fs.read), Write(p, !fs.write), Unlock(p));
    IndexSteps(Next(s, PutRecord(p, r)), p, r.key, fs);
    assert s.procs[p := Written(r.key)][p := Ready] == s.procs;
  }

  /** Two calls whose lock attempts fail both read the empty index. */
  function LostUpdate(a: Record, b: Record): seq<Step> {
    [PutRecord(0, a)] + [PutRecord(1, b)] + [Lock(0, false)] + [Lock(1, false)] + [Read(0, true)] + [Read(1, true)]
    + [Write(0, true)] + [Write(1, true)] + [Unlock(0)] + [Unlock(1)]
  }

  lemma RunBoth(s: State, xs: seq<Step>, y: Step, z: Step)
    ensures Run(s, xs + [y] + [z]) == Next(Next(Run(s, xs), y), z)
  {
    RunSnoc(s, xs, y);
    RunSnoc(s, xs + [y], z);
  }

  function Two(dm: map<string, Value>, x: Phase, y: Phase): State {
    State(dm, map[0 := x, 1 := y])
  }

  lemma StepTwo(d: map<string, Value>, x: Phase, y: Phase, u: Step, v: Step)
    requires !u.Expire? && !v.Expire? && u.p == 0 && v.p == 1
    ensures var t := State(MapAfter(Two(d, x, y), u), map[0 := PhaseAfter(Two(d, x, y), u), 1 := y]);
            Next(Next(Two(d, x, y), u), v) == Two(MapAfter(t, v), PhaseAfter(Two(d, x, y), u), PhaseAfter(t, v))
  {
    var x' := PhaseAfter(Two(d, x, y), u);
    assert map[0 := x, 1 := y][0 := x'] == map[0 := x', 1 := y];
    var t := State(MapAfter(Two(d, x, y), u), map[0 := x', 1 := y]);
    assert t.procs[1 := PhaseAfter(t, v)] == map[0 := x', 1 := PhaseAfter(t, v)];
  }

  lemma BothWritten(a: Record, b: Record, d: map<string, Value>)
    requires DataKey(a.key) && DataKey(b.key) && a.key != b.key && d == map[a.key := Rec(a), b.key := Rec(b)]
    ensures Next(Next(Two(map[], Ready, Ready), PutRecord(0, a)), PutRecord(1, b)) == Two(d, Written(a.key), Written(b.key))
  {
    StepTwo(map[], Ready, Ready, PutRecord(0, a), PutRecord(1, b));
  }

  lemma BothReadEmpty(d: map<string, Value>, j: string, k: string)
    requires INDEX_KEY !in d
    ensures Next(Next(Two(d, Written(j), Written(k)), Lock(0, false)), Lock(1, false)) == Two(d, Reading(j, false), Reading(k, false))
    ensures Next(Next(Two(d, Reading(j, false), Reading(k, false)), Read(0, true)), Read(1, true))
            == Two(d, Extending(j, false, []), Extending(k, false, []))
  {
    StepTwo(d, Written(j), Written(k), Lock(0, false), Lock(1, false));
    StepTwo(d, Reading(j, false), Reading(k, false), Read(0, true), Read(1, true));
  }

  lemma BothExtend(d: map<string, Value>, j: string, k: string)
    ensures var e := d[INDEX_KEY := Keys([k])];
            && Next(Next(Two(d, Extending(j, false, []), Extending(k, false, [])), Write(0, true)), Write(1, true))
               == Two(e, Unlocking(false), Unlocking(false))
            && Next(Next(Two(e, Unlocking(false), Unlocking(false)), Unlock(0)), Unlock(1)) == Two(e, Ready, Ready)
  {
    var e := d[INDEX_KEY := Keys([k])];
    StepTwo(d, Extending(j, false, []), Extending(k, false, []), Write(0, true), Write(1, true));
    assert [] + [k] == [k];
    assert d[INDEX_KEY := Keys([] + [j])][INDEX_KEY := Keys([k])] == e;
    StepTwo(e, Unlocking(false), Unlocking(false), Unlock(0), Unlock(1));
  }

  /** The index loses the first key although its record is stored and no call is
      pending: completeness needs the lock. */
  lemma UnlockedIndexLosesKey(a: Record, b: Record)
    requires DataKey(a.key) && DataKey(b.key) && a.key != b.key
    ensures var s := Run(Two(map[], Ready, Ready), LostUpdate(a, b));
            && s.procs == map[0 := Ready, 1 := Ready]
            && Stored(s.dm, a.key) && s.dm[a.key] == Rec(a) && a.key !in IndexOf(s.dm) && IndexOf(s.dm) == [b.key]
  {
    var s0 := Two(map[], Ready, Ready);
    var d: map<string, Value> := map[a.key := Rec(a), b.key := Rec(b)];
    var x1 := [PutRecord(0, a)] + [PutRecord(1, b)];
    var x2 := x1 + [Lock(0, false)] + [Lock(1, false)];
    var x3 := x2 + [Read(0, true)] + [Read(1, true)];
    var x4 := x3 + [Write(0, true)] + [Write(1, true)];
    assert [] + [PutRecord(0, a)] + [PutRecord(1, b)] == x1;
    RunBoth(s0, [], PutRecord(0, a), PutRecord(1, b));
    RunBoth(s0, x1, Lock(0, false), Lock(1, false));
    RunBoth(s0, x2, Read(0, true), Read(1, true));
    RunBoth(s0, x3, Write(0, true), Write(1, true));
    RunBoth(s0, x4, Unlock(0), Unlock(1));
    BothWritten(a, b, d);
    BothReadEmpty(d, a.key, b.key);
    BothExtend(d, a.key, b.key);
  }

  /** Records put one after another. */
  function PutAll(dm: map<string, Value>, rs: seq<Record>): map<string, Value> {
    if rs == [] then dm else PutDone(PutAll(dm, rs[..|rs| - 1]), rs[|rs| - 1])
  }

  /** The keys of the records, each at its first occurrence. */
  function FirstKeys(rs: seq<Record>): seq<string> {
    if rs == [] then []
    else
      var before, key := FirstKeys(rs[..|rs| - 1]), rs[|rs| - 1].key;
      if key in before then before else before + [key]
  }

  predicate AllData(rs: seq<Record>) {
    forall i :: 0 <= i < |rs| ==> DataKey(rs[i].key)
  }

  /** What one Put does to the index list and to each data key. */
  lemma PutDoneAt(dm: map<string, Value>, r: Record, k: string)
    requires Decodable(dm) && DataKey(r.key) && DataKey(k)
    ensures var out := PutDone(dm, r);
            && Decodable(out) && IndexOf(out) == (if r.key in IndexOf(dm) then IndexOf(dm) else IndexOf(dm) + [r.key])
            && Lookup(out, k) == (if k == r.key then Some(Rec(r)) else Lookup(dm, k))
  {
    assert IndexOf(dm[r.key := Rec(r)]) == IndexOf(dm);
  }

  /** From an empty map, Keys lists the keys in the order of their first Put. */
  lemma {:induction false} PutsAreListed(rs: seq<Record>)
    requires AllData(rs)
    ensures Decodable(PutAll(map[], rs)) && IndexOf(PutAll(map[], rs)) == FirstKeys(rs)
  {
    if rs != [] {
      hide PutDone, Decodable, IndexOf;
      var n := |rs| - 1;
      PutsAreListed(rs[..n]);
      PutDoneAt(PutAll(map[], rs[..n]), rs[n], rs[n].key);
    } else {
      assert PutAll(map[], rs) == map[];
    }
  }

  /** And under each key stands, unchanged, the last record put there. */
  lemma {:induction false} LastPutIsStored(rs: seq<Record>, i: nat)
    requires AllData(rs) && i < |rs| && forall j :: i < j < |rs| ==> rs[j].key != rs[i].key
    ensures Lookup(PutAll(map[], rs), rs[i].key) == Some(Rec(rs[i]))
  {
    hide PutDone, Decodable, DataKey;
    var n := |rs| - 1;
    var front := rs[..n];
    PutsAreListed(front);
    PutDoneAt(PutAll(map[], front), rs[n], rs[i].key);
    if i < n {
      assert front[i] == rs[i] && rs[n].key != rs[i].key;
      assert forall j :: i < j < n ==> front[j] == rs[j];
      LastPutIsStored(front, i);
    }
  }

  /** In a complete index without pending calls a Put keeps completeness. */
  lemma PutKeepsComplete(s: State, r: Record)
    requires Safe(s) && Complete(s) && DataKey(r.key) && forall p :: p in s.procs ==> s.procs[p].Ready?
    ensures Complete(s.(dm := PutDone(s.dm, r)))
  {
    var dm := PutDone(s.dm, r);
    forall k ensures Stored(dm, k) <==> k in IndexOf(dm) {
      assert Stored(s.dm, k) <==> k in IndexOf(s.dm);
      assert IndexOf(s.dm[r.key := Rec(r)]) == IndexOf(s.dm);
    }
  }
}
