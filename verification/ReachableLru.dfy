/** The memory map of the running protocol as a least-recently-used cache: every run spells out a history of
    touches and removals, the map is what that history leaves, and so the theorems about histories hold of it. */
module ReachableLru {
  import opened Common
  import opened ReadCache
  import opened MemoryLru
  import P = CacheProtocol

  function Forgotten(m: seq<Slot>, chatId: string): set<Key> {
    set slot | slot in m && (chatId == "" || Named(slot.key, chatId)) :: slot.key
  }

  /** A lookup touches the key it finds; one that memory holds too long is dropped first. */
  function LookupOps(c: Client, k: Key, now: int, fits: bool): seq<Op> {
    var found := Lookup(c.memory, k);
    if found.Some? && Fresh(found.value, k.part, now) then [Touch(k, found.value)]
    else
      var stored := ReadSession(c.session, k, now, fits).0;
      (if found.Some? then [Drop({k})] else []) + if stored.Some? then [Touch(k, stored.value)] else []
  }

  /** What one step does to the memory map: reads and current responses touch, invalidations and reloads remove. */
  function StepOps(s: P.State, a: P.Action): seq<Op> {
    match a
    case Read(_, key, now, fits) => LookupOps(s.client, key, now, fits)
    case Respond(id, reply, cacheable, savedAt, _, _, _) =>
      if id in s.requests && cacheable && s.requests[id].generation == s.client.generation
      then [Touch(s.requests[id].key, Entry(reply, savedAt))] else []
    case MutationReturns(m) =>
      if m in s.committed then [Drop(Forgotten(s.client.memory, s.committed[m].chatId))] else []
    case ClearAll => [Drop(Forgotten(s.client.memory, ""))]
    case Reload => [Drop(Forgotten(s.client.memory, ""))]
    case _ => []
  }

  ghost function Trace(states: seq<P.State>, actions: seq<P.Action>, n: nat): seq<Op>
    requires n <= |actions| <= |states|
  {
    if n == 0 then [] else Trace(states, actions, n - 1) + StepOps(states[n - 1], actions[n - 1])
  }

  function Apply(m: seq<Slot>, op: Op): seq<Slot> {
    match op
    case Touch(k, e) => WriteMemory(m, k, e)
    case Drop(keys) => Dropped(m, keys)
  }

  function ApplyAll(m: seq<Slot>, ops: seq<Op>): seq<Slot>
    decreases ops
  {
    if ops == [] then m else ApplyAll(Apply(m, ops[0]), ops[1..])
  }

  lemma {:induction false} AfterPrefix(ops: seq<Op>, more: seq<Op>, n: nat)
    requires n <= |ops|
    ensures After(ops + more, n) == After(ops, n)
  {
    hide WriteMemory, Dropped;
    if n > 0 {
      assert (ops + more)[n - 1] == ops[n - 1];
      AfterPrefix(ops, more, n - 1);
    }
  }

  lemma {:induction false} AfterMore(ops: seq<Op>, more: seq<Op>)
    ensures After(ops + more, |ops| + |more|) == ApplyAll(After(ops, |ops|), more)
    decreases |more|
  {
    hide WriteMemory, Dropped;
    if more == [] {
      assert ops + more == ops;
    } else {
      var one := ops + [more[0]];
      AfterPrefix(ops, [more[0]], |ops|);
      assert After(one, |one|) == Apply(After(ops, |ops|), more[0]);
      AfterMore(one, more[1..]);
      assert one + more[1..] == ops + more;
    }
  }

  lemma {:induction false} ForgottenIsGone(m: seq<Slot>, all: seq<Slot>, chatId: string)
    requires chatId != "" && forall slot :: slot in m ==> slot in all
    ensures Dropped(m, Forgotten(all, chatId)) == Unnamed(m, chatId)
  {
    hide Named;
    forall slot | slot in m ensures slot.key in Forgotten(all, chatId) <==> Named(slot.key, chatId) {
    }
    UnnamedIsDrop(m, chatId, Forgotten(all, chatId));
  }

  lemma {:induction false} AllForgotten(m: seq<Slot>, all: seq<Slot>)
    requires forall slot :: slot in m ==> slot in all
    ensures Dropped(m, Forgotten(all, "")) == []
  {
    if m != [] {
      assert m == [m[0]] + m[1..];
      AllForgotten(m[1..], all);
    }
  }

  lemma InvalidateIsDrop(c: Client, chatId: string)
    ensures Invalidate(c, chatId).memory == Dropped(c.memory, Forgotten(c.memory, chatId))
  {
    hide Forgotten, Dropped, Unnamed;
    if chatId == "" { AllForgotten(c.memory, c.memory); } else { ForgottenIsGone(c.memory, c.memory, chatId); }
  }

  lemma OneApplied(m: seq<Slot>, op: Op)
    ensures ApplyAll(m, [op]) == Apply(m, op)
  {
    assert [op][1..] == [];
  }

  lemma {:induction false} WithoutAbsent(m: seq<Slot>, k: Key)
    requires Lookup(m, k).None?
    ensures Without(m, k) == m
  {
    if m != [] {
      WithoutAbsent(m[1..], k);
      assert m == [m[0]] + m[1..];
    }
  }

  lemma LookupApplies(c: Client, k: Key, now: int, fits: bool)
    requires |c.memory| <= MEMORY_LIMIT
    ensures ReadEntry(c, k, now, fits).1.memory == ApplyAll(c.memory, LookupOps(c, k, now, fits))
  {
    hide ApplyAll, Dropped, Without, Lookup, ReadSession;
    WithoutLength(c.memory, k);
    WithoutIsDrop(c.memory, k);
    var found, stored := Lookup(c.memory, k), ReadSession(c.session, k, now, fits).0;
    if found.Some? && Fresh(found.value, k.part, now) {
      OneApplied(c.memory, Touch(k, found.value));
    } else if found.Some? {
      AppliedInTurn(c.memory, [Drop({k})], if stored.Some? then [Touch(k, stored.value)] else []);
      OneApplied(c.memory, Drop({k}));
      AppliedMaybe(Dropped(c.memory, {k}), k, stored);
    } else {
      WithoutAbsent(c.memory, k);
      AppliedInTurn(c.memory, [], if stored.Some? then [Touch(k, stored.value)] else []);
      NoneApplied(c.memory);
      AppliedMaybe(c.memory, k, stored);
    }
  }

  lemma {:induction false} AppliedInTurn(m: seq<Slot>, ops: seq<Op>, more: seq<Op>)
    ensures ApplyAll(m, ops + more) == ApplyAll(ApplyAll(m, ops), more)
    decreases ops
  {
    hide WriteMemory, Dropped;
    if ops == [] {
      assert ops + more == more;
    } else {
      assert (ops + more)[1..] == ops[1..] + more;
      AppliedInTurn(Apply(m, ops[0]), ops[1..], more);
    }
  }

  lemma AppliedMaybe(m: seq<Slot>, k: Key, stored: Option<Entry>)
    ensures ApplyAll(m, if stored.Some? then [Touch(k, stored.value)] else []) ==
            if stored.Some? then WriteMemory(m, k, stored.value) else m
  {
    hide WriteMemory;
    if stored.Some? { OneApplied(m, Touch(k, stored.value)); } else { NoneApplied(m); }
  }

  lemma BeginReadMemory(c: Client, k: Key, now: int, fits: bool, id: nat)
    ensures BeginRead(c, k, now, fits, id).1.memory == ReadEntry(c, k, now, fits).1.memory
  {
    hide ReadEntry;
  }

  lemma RespondApplies(s: P.State, a: P.Action, t: P.State)
    requires a.Respond? && P.Step(s, a, t)
    ensures t.client.memory == ApplyAll(s.client.memory, StepOps(s, a))
  {
    hide WriteMemory, Stored, ApplyAll;
    var key, e := s.requests[a.id].key, Entry(a.reply, a.savedAt);
    if a.cacheable && s.requests[a.id].generation == s.client.generation {
      OneApplied(s.client.memory, Touch(key, e));
    } else {
      NoneApplied(s.client.memory);
    }
  }

  lemma NoneApplied(m: seq<Slot>)
    ensures ApplyAll(m, []) == m
  {
  }

  /** Each step changes the memory map by exactly its operations. */
  lemma StepApplies(s: P.State, a: P.Action, t: P.State)
    requires P.Step(s, a, t) && |s.client.memory| <= MEMORY_LIMIT
    ensures t.client.memory == ApplyAll(s.client.memory, StepOps(s, a))
  {
    hide ApplyAll, ReadEntry, BeginRead, LookupOps, Forgotten, Dropped, Unnamed;
    match a {
      case Read(_, key, now, fits) =>
        BeginReadMemory(s.client, key, now, fits, s.nextId);
        LookupApplies(s.client, key, now, fits);
      case Respond(_, _, _, _, _, _, _) => RespondApplies(s, a, t);
      case MutationReturns(m) =>
        InvalidateIsDrop(s.client, s.committed[m].chatId);
        OneApplied(s.client.memory, Drop(Forgotten(s.client.memory, s.committed[m].chatId)));
      case ClearAll =>
        InvalidateIsDrop(s.client, "");
        OneApplied(s.client.memory, Drop(Forgotten(s.client.memory, "")));
      case Reload =>
        AllForgotten(s.client.memory, s.client.memory);
        OneApplied(s.client.memory, Drop(Forgotten(s.client.memory, "")));
      case _ => NoneApplied(s.client.memory);
    }
  }

  lemma StepOfRun(states: seq<P.State>, actions: seq<P.Action>, n: nat)
    requires P.Run(states, actions) && n < |actions|
    ensures |states| == |actions| + 1 && P.Step(states[n], actions[n], states[n + 1])
    ensures |states[n].client.memory| <= MEMORY_LIMIT
  {
    hide P.Step, P.Inv;
    P.RunKeeps(states, actions, n);
    P.LimitOf(states[n]);
  }

  lemma TraceStart(states: seq<P.State>, actions: seq<P.Action>)
    requires P.Run(states, actions)
    ensures Trace(states, actions, 0) == [] && states[0].client.memory == After([], 0)
  {
  }

  lemma TraceStep(states: seq<P.State>, actions: seq<P.Action>, n: nat)
    requires n < |actions| <= |states|
    ensures Trace(states, actions, n + 1) == Trace(states, actions, n) + StepOps(states[n], actions[n])
  {
    hide StepOps;
  }

  /** In every reachable state the memory map is what the run's own history of touches and removals leaves. */
  lemma {:induction false} MemoryIsTrace(states: seq<P.State>, actions: seq<P.Action>, n: nat)
    requires P.Run(states, actions) && n <= |actions|
    ensures states[n].client.memory == After(Trace(states, actions, n), |Trace(states, actions, n)|)
  {
    hide StepOps, After, ApplyAll, P.Step, Trace;
    if n == 0 {
      TraceStart(states, actions);
    } else {
      MemoryIsTrace(states, actions, n - 1);
      StepOfRun(states, actions, n - 1);
      hide P.Run;
      var ops, more := Trace(states, actions, n - 1), StepOps(states[n - 1], actions[n - 1]);
      StepApplies(states[n - 1], actions[n - 1], states[n]);
      AfterMore(ops, more);
      TraceStep(states, actions, n - 1);
    }
  }

  /** So in every reachable state it stands in the order of last touch, and holds exactly the keys that were touched,
      not removed since, and never had 36 younger ones in it. */
  lemma ReachableMemoryIsLru(states: seq<P.State>, actions: seq<P.Action>, n: nat, k: Key)
    requires P.Run(states, actions) && n <= |actions|
    ensures var ops := Trace(states, actions, n);
            && InTouchOrder(ops, |ops|, states[n].client.memory)
            && (Lookup(states[n].client.memory, k).Some? <==>
                 Survives(ops, |ops|, k) && NeverCrowded(ops, LastTouch(ops, |ops|, k), |ops|))
  {
    hide P.Step, Trace, After, InTouchOrder, LastTouch, Survives, NeverCrowded, Lookup;
    var ops := Trace(states, actions, n);
    MemoryIsTrace(states, actions, n);
    TouchOrder(ops, |ops|);
    ExactLru(ops, |ops|, k);
  }
}
