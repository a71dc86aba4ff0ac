/**
 `singleflight.rs`: one shared lock per key, held in a table of weak entries.

 A call runs under the table's own mutex, so calls do not overlap; but handles are dropped, and
 the locks they stand for taken and released, at any moment in between.
 */
module SingleFlight {
  import opened Wrappers

  type Key = string

  /** A strong reference that a caller holds, and the lock it refers to. */
  datatype Handle = Handle(key: Key, lock: nat)

  datatype Phase =
    | Idle
    | Pruning(key: Key, left: set<Key>)
    | Looking(key: Key)
    | Created(key: Key, lock: nat)

  /** An entry is a weak reference: none yet, or to a lock that may be gone. */
  datatype State = State(
    entries: map<Key, Option<nat>>,
    handles: map<nat, Handle>,
    holders: set<nat>,
    made: nat,
    phase: Phase
  )

  datatype Event =
    | Call(key: Key)
    | Visit(key: Key)
    | Look
    | Upgrade(handle: nat)
    | Store(handle: nat)
    | Drop(handle: nat)
    | Take(handle: nat)
    | Release(handle: nat)

  const EMPTY := State(map[], map[], {}, 0, Idle)

  /** `strong_count() != 0`: the target of the weak reference is still referred to. */
  predicate Alive(handles: map<nat, Handle>, entry: Option<nat>) {
    entry.Some? && exists id | id in handles :: handles[id].lock == entry.value
  }

  function Step(s: State, e: Event): State {
    match e
    case Call(key) =>
      if s.phase.Idle? then s.(phase := Pruning(key, s.entries.Keys)) else s
    case Visit(key) =>
      if s.phase.Pruning? && key in s.phase.left && key in s.entries then
        s.(phase := Pruning(s.phase.key, s.phase.left - {key}),
           entries := if Alive(s.handles, s.entries[key]) then s.entries else s.entries - {key})
      else s
    case Look =>
      if s.phase.Pruning? && s.phase.left == {} then
        s.(phase := Looking(s.phase.key),
           entries := if s.phase.key in s.entries then s.entries else s.entries[s.phase.key := None])
      else s
    case Upgrade(id) =>
      if s.phase.Looking? && s.phase.key in s.entries && id !in s.handles then
        var key := s.phase.key;
        if Alive(s.handles, s.entries[key]) then
          s.(phase := Idle, handles := s.handles[id := Handle(key, s.entries[key].value)])
        else s.(phase := Created(key, s.made), made := s.made + 1)
      else s
    case Store(id) =>
      if s.phase.Created? && id !in s.handles then
        var key, lock := s.phase.key, s.phase.lock;
        s.(phase := Idle, entries := s.entries[key := Some(lock)], handles := s.handles[id := Handle(key, lock)])
      else s
    case Drop(id) =>
      if id in s.handles && id !in s.holders then s.(handles := s.handles - {id}) else s
    case Take(id) =>
      if id in s.handles && (forall other | other in s.holders && other in s.handles ::
                               s.handles[other].lock != s.handles[id].lock)
      then s.(holders := s.holders + {id}) else s
    case Release(id) => s.(holders := s.holders - {id})
  }

  function Run(s: State, es: seq<Event>): State {
    if es == [] then s else Step(Run(s, es[..|es| - 1]), es[|es| - 1])
  }

  // ---- invariant ----------------------------------------------------------------------------

  /** Whoever holds a handle finds its lock in the table. */
  ghost predicate Registered(s: State) {
    forall id | id in s.handles ::
      s.handles[id].key in s.entries && s.entries[s.handles[id].key] == Some(s.handles[id].lock)
  }

  ghost predicate Separate(s: State) {
    && (forall k | k in s.entries && s.entries[k].Some? :: s.entries[k].value < s.made)
    && (forall j, k | j in s.entries && k in s.entries && s.entries[j].Some? && s.entries[j] == s.entries[k] :: j == k)
  }

  ghost predicate PhaseOk(s: State) {
    match s.phase
    case Idle => true
    case Pruning(_, left) => left <= s.entries.Keys
    case Looking(key) => key in s.entries
    case Created(key, lock) =>
      && lock < s.made
      && (forall k | k in s.entries :: s.entries[k] != Some(lock))
      && (forall id | id in s.handles :: s.handles[id].key != key)
  }

  ghost predicate Exclusive(s: State) {
    && s.holders <= s.handles.Keys
    && forall i, j | i in s.holders && j in s.holders && s.handles[i].lock == s.handles[j].lock :: i == j
  }

  ghost predicate Inv(s: State) {
    Registered(s) && Separate(s) && PhaseOk(s) && Exclusive(s)
  }

  lemma RegisteredNext(s: State, e: Event)
    requires Inv(s)
    ensures Registered(Step(s, e))
  {
  }

  lemma SeparateNext(s: State, e: Event)
    requires Inv(s)
    ensures Separate(Step(s, e))
  {
  }

  lemma PhaseNext(s: State, e: Event)
    requires Inv(s)
    ensures PhaseOk(Step(s, e))
  {
  }

  lemma ExclusiveNext(s: State, e: Event)
    requires Inv(s)
    ensures Exclusive(Step(s, e))
  {
  }

  lemma InvNext(s: State, e: Event)
    requires Inv(s)
    ensures Inv(Step(s, e))
  {
    RegisteredNext(s, e);
    SeparateNext(s, e);
    PhaseNext(s, e);
    ExclusiveNext(s, e);
  }

  lemma {:induction false} InvKept(s: State, es: seq<Event>)
    requires Inv(s)
    ensures Inv(Run(s, es))
  {
    if es != [] {
      InvKept(s, es[..|es| - 1]);
      InvNext(Run(s, es[..|es| - 1]), es[|es| - 1]);
    }
  }

  // ---- what callers rely on -----------------------------------------------------------------

  /** At any moment of any run, two handles share a lock exactly when they are for one key. */
  lemma {:induction false} OneLockPerKey(es: seq<Event>, i: nat, j: nat)
    requires i in Run(EMPTY, es).handles && j in Run(EMPTY, es).handles
    ensures var handles := Run(EMPTY, es).handles;
            handles[i].lock == handles[j].lock <==> handles[i].key == handles[j].key
  {
    InvKept(EMPTY, es);
  }

  /** At most one caller at a time works on a key. */
  lemma {:induction false} SingleFlightPerKey(es: seq<Event>, i: nat, j: nat)
    requires i in Run(EMPTY, es).holders && j in Run(EMPTY, es).holders
    ensures i in Run(EMPTY, es).handles && j in Run(EMPTY, es).handles
    ensures Run(EMPTY, es).handles[i].key == Run(EMPTY, es).handles[j].key ==> i == j
  {
    InvKept(EMPTY, es);
  }

  /** An entry's lock is alive exactly while somebody has a handle for its key. */
  lemma {:induction false} AliveIs(es: seq<Event>, key: Key)
    requires key in Run(EMPTY, es).entries
    ensures var s := Run(EMPTY, es);
            Alive(s.handles, s.entries[key]) <==> exists id | id in s.handles :: s.handles[id].key == key
  {
    InvKept(EMPTY, es);
    var s := Run(EMPTY, es);
    if id :| id in s.handles && s.handles[id].key == key {
      assert s.entries[key] == Some(s.handles[id].lock);
    }
  }

  /** Calls do not overlap, and each prunes the table that it finds. */
  lemma CallsTakeTurns(s: State, key: Key)
    ensures Step(s, Call(key)) == if s.phase.Idle? then s.(phase := Pruning(key, s.entries.Keys)) else s
  {
  }

  /** Nobody works on the key that this handle is for. */
  predicate Free(s: State, id: nat) {
    id in s.handles && forall other | other in s.holders && other in s.handles :: s.handles[other].key != s.handles[id].key
  }

  /** The turn is granted exactly when nobody works on the same key, whatever goes on under other keys. */
  lemma {:induction false} TurnIsGrantedIff(es: seq<Event>, id: nat)
    requires id !in Run(EMPTY, es).holders
    ensures var s := Run(EMPTY, es);
            id in Step(s, Take(id)).holders <==> Free(s, id)
    ensures var s := Run(EMPTY, es);
            Step(s, Take(id)) == if Free(s, id) then s.(holders := s.holders + {id}) else s
  {
    var s := Run(EMPTY, es);
    if id in s.handles {
      forall other | other in s.holders && other in s.handles
        ensures s.handles[other].lock == s.handles[id].lock <==> s.handles[other].key == s.handles[id].key
      {
        OneLockPerKey(es, other, id);
      }
    }
  }

  /** When the one who works on a key is done, anybody else with a handle for it can go on. */
  lemma {:induction false} TurnPassesOn(es: seq<Event>, done: nat, next: nat)
    requires var s := Run(EMPTY, es);
             && done in s.holders && done in s.handles && next in s.handles && next != done
             && s.handles[done].key == s.handles[next].key
    ensures next in Step(Step(Run(EMPTY, es), Release(done)), Take(next)).holders
  {
    var s := Run(EMPTY, es);
    InvKept(EMPTY, es);
    forall other | other in s.holders && other in s.handles && other != done
      ensures s.handles[other].lock != s.handles[next].lock
    {
      SingleFlightPerKey(es, other, done);
      OneLockPerKey(es, other, next);
    }
  }

  /** The handle is never dropped during the run. */
  predicate LivesThrough(s: State, es: seq<Event>, id: nat) {
    id in Run(s, es).handles && (es == [] || LivesThrough(s, es[..|es| - 1], id))
  }

  lemma EntryStays(s: State, e: Event, id: nat)
    requires Inv(s) && id in s.handles && id in Step(s, e).handles
    ensures Step(s, e).handles[id] == s.handles[id]
    ensures var key := s.handles[id].key;
            key in s.entries && key in Step(s, e).entries && Step(s, e).entries[key] == s.entries[key]
  {
    RegisteredNext(s, e);
  }

  /** While a handle lives, no step prunes or overwrites its key's entry. */
  lemma {:induction false} LiveEntriesStay(s: State, es: seq<Event>, id: nat)
    requires Inv(s) && id in s.handles && LivesThrough(s, es, id)
    ensures var after := Run(s, es);
            && after.handles[id] == s.handles[id]
            && var key := s.handles[id].key;
               key in s.entries && key in after.entries && after.entries[key] == s.entries[key]
  {
    if es != [] {
      var earlier := es[..|es| - 1];
      LiveEntriesStay(s, earlier, id);
      InvKept(s, earlier);
      EntryStays(Run(s, earlier), es[|es| - 1], id);
    } else {
      EntryStays(s, Release(id), id);
    }
  }

  // ---- the table ----------------------------------------------------------------------------

  lemma {:induction false} RunNext(s: State, es: seq<Event>, e: Event)
    ensures Run(s, es + [e]) == Step(Run(s, es), e)
  {
    assert (es + [e])[..|es|] == es;
  }

  ghost predicate Shrunk<A, B>(before: map<A, B>, after: map<A, B>) {
    forall x | x in after :: x in before && after[x] == before[x]
  }

  /** The entries already looked at had a live lock. */
  ghost predicate Weeded(entries: map<Key, Option<nat>>, left: set<Key>, handles: map<nat, Handle>) {
    forall k | k in entries && k !in left :: Alive(handles, entries[k])
  }

  lemma WeededNext(entries: map<Key, Option<nat>>, left: set<Key>, handles: map<nat, Handle>,
                   now: map<Key, Option<nat>>, k: Key, current: map<nat, Handle>)
    requires Weeded(entries, left, handles) && Shrunk(entries, now) && Shrunk(handles, current)
    requires k in now ==> Alive(current, now[k])
    ensures Weeded(now, left - {k}, handles)
  {
  }

  function Visited(s: State, drop: nat, k: Key): State {
    Step(Step(s, Drop(drop)), Visit(k))
  }

  lemma {:induction false} VisitNext(s: State, es: seq<Event>, drop: nat, k: Key)
    ensures Run(s, es + [Drop(drop)] + [Visit(k)]) == Visited(Run(s, es), drop, k)
  {
    RunNext(s, es, Drop(drop));
    RunNext(s, es + [Drop(drop)], Visit(k));
  }

  class Flights {
    var entries: map<Key, Option<nat>>
    var handles: map<nat, Handle>
    var holders: set<nat>
    var made: nat

    function View(): State
      reads this
    {
      State(entries, handles, holders, made, Idle)
    }

    ghost predicate Valid()
      reads this
    {
      Inv(View())
    }

    constructor ()
      ensures View() == EMPTY && Valid()
    {
      entries, handles, holders, made := map[], map[], {}, 0;
    }

    /** Somebody drops a handle, if nobody is working under it. */
    method DropHandle(id: nat)
      modifies this`handles
      ensures handles == if id in old(handles) && id !in holders then old(handles) - {id} else old(handles)
    {
      if id in handles && id !in holders {
        handles := handles - {id};
      }
    }

    /** A handle is dropped, then one entry is looked at. */
    method RetainOne(key: Key, left: set<Key>, k: Key, drop: nat)
      requires k in left && k in entries
      modifies this`entries, this`handles
      ensures State(entries, handles, holders, made, Pruning(key, left - {k})) ==
              Visited(old(State(entries, handles, holders, made, Pruning(key, left))), drop, k)
      ensures Shrunk(old(handles), handles) && Shrunk(old(entries), entries) && old(entries).Keys - {k} <= entries.Keys
      ensures k in entries ==> Alive(old(handles), entries[k])
    {
      DropHandle(drop);
      if !Alive(handles, entries[k]) {
        entries := entries - {k};
      }
    }

    /** `retain`: entries whose lock is gone are removed, while others keep dropping handles. */
    method Retain(key: Key, drops: nat -> nat) returns (moment: nat, ghost run: seq<Event>)
      modifies this`entries, this`handles
      ensures State(entries, handles, holders, made, Pruning(key, {})) == Run(old(View()), run)
      ensures Shrunk(old(handles), handles) && Shrunk(old(entries), entries)
      ensures Weeded(entries, {}, old(handles))
    {
      moment := 0;
      var left := entries.Keys;
      ghost var start := View();
      RunNext(start, [], Call(key));
      run := [] + [Call(key)];
      while left != {}
        invariant State(entries, handles, holders, made, Pruning(key, left)) == Run(start, run)
        invariant left <= entries.Keys
        invariant Shrunk(old(handles), handles) && Shrunk(old(entries), entries)
        invariant Weeded(entries, left, old(handles))
        decreases |left|
      {
        var k :| k in left;
        VisitNext(start, run, drops(moment), k);
        ghost var before, table := handles, entries;
        RetainOne(key, left, k, drops(moment));
        WeededNext(table, left, old(handles), entries, k, before);
        left := left - {k};
        run, moment := run + [Drop(drops(moment))] + [Visit(k)], moment + 1;
      }
    }

    /** The rest of a call: upgrade the key's entry, or replace it. */
    method UpgradeOrMake(key: Key, id: nat, drop: nat) returns (lock: nat, ghost run: seq<Event>)
      requires id !in handles
      modifies this`entries, this`handles, this`made
      ensures View() == Run(old(State(entries, handles, holders, made, Pruning(key, {}))), run)
      ensures id in handles && handles[id] == Handle(key, lock)
      ensures forall other | other in handles && other != id :: other in old(handles)
      ensures forall k | k in entries && k != key :: k in old(entries)
    {
      ghost var s := State(entries, handles, holders, made, Pruning(key, {}));
      RunNext(s, [], Look);
      if key !in entries {
        entries := entries[key := None];
      }
      run := [] + [Look];
      assert Run(s, run) == State(entries, handles, holders, made, Looking(key));
      RunNext(s, run, Drop(drop));
      DropHandle(drop);
      run := run + [Drop(drop)];
      assert Run(s, run) == State(entries, handles, holders, made, Looking(key));
      RunNext(s, run, Upgrade(id));
      run := run + [Upgrade(id)];
      if Alive(handles, entries[key]) {
        lock := entries[key].value;
        handles := handles[id := Handle(key, lock)];
        return;
      }
      lock := made;
      made := made + 1;
      assert Run(s, run) == State(entries, handles, holders, made, Created(key, lock));
      RunNext(s, run, Store(id));
      entries := entries[key := Some(lock)];
      handles := handles[id := Handle(key, lock)];
      run := run + [Store(id)];
    }

    /**
     `for_key`, handing out handle `id`. The k-th handle of `drops` is dropped at the k-th point
     where others can run: before each entry is visited, and between the pruning and the upgrade.
     */
    method ForKey(key: Key, id: nat, drops: nat -> nat) returns (lock: nat, ghost run: seq<Event>)
      requires Valid() && id !in handles
      modifies this`entries, this`handles, this`made
      ensures Valid() && View() == Run(old(View()), run)
      ensures id in handles && handles[id] == Handle(key, lock)
      ensures forall other | other in handles ::
                handles[other].lock == lock <==> handles[other].key == key
      ensures forall k | k in entries && k != key ::
                k in old(entries) && exists held | held in old(handles) :: old(handles)[held].key == k
    {
      var moment;
      ghost var pruning, rest;
      moment, pruning := Retain(key, drops);
      lock, rest := UpgradeOrMake(key, id, drops(moment));
      run := pruning + rest;
      RunJoins(old(View()), pruning, rest);
      InvKept(old(View()), run);
    }
  }

  lemma {:induction false} RunJoins(s: State, first: seq<Event>, second: seq<Event>)
    ensures Run(s, first + second) == Run(Run(s, first), second)
  {
    if second == [] {
      assert first + second == first;
    } else {
      var k := |second| - 1;
      assert (first + second)[..|first| + k] == first + second[..k];
      RunJoins(s, first, second[..k]);
    }
  }
}
