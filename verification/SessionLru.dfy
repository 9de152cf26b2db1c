/** The session tier of the running protocol as a least-recently-used cache, measured against the times at which the
    run itself used each record, not against the time stamps kept in the records. */
module SessionLru {
  import opened Common
  import opened ReadCache
  import P = CacheProtocol

  /** A step uses the session record of a key when it stores it, or serves it and can note that down. */
  ghost predicate Uses(s: P.State, a: P.Action, k: Key) {
    match a
    case Read(_, key, now, fits) =>
      && key == k && fits && key in s.client.session && now < s.client.session[key].expiresAt
      && !(Lookup(s.client.memory, key).Some? && Fresh(Lookup(s.client.memory, key).value, key.part, now))
    case Respond(id, _, cacheable, _, _, fits, fitsAlone) =>
      Writes(s, a) && s.requests[id].key == k && (fits || fitsAlone)
    case _ => false
  }

  /** The response is cacheable and of the current generation. */
  ghost predicate Writes(s: P.State, a: P.Action) {
    a.Respond? && a.id in s.requests && a.cacheable && s.requests[a.id].generation == s.client.generation
  }

  function ClockOf(a: P.Action): int {
    if a.Read? || a.Respond? then a.now else 0
  }

  /** What the clock showed when the record of a key was last used in the first n steps. */
  ghost function LastUse(states: seq<P.State>, actions: seq<P.Action>, n: nat, k: Key): Option<int>
    requires n <= |actions| <= |states|
  {
    if n == 0 then None
    else if Uses(states[n - 1], actions[n - 1], k) then Some(ClockOf(actions[n - 1]))
    else LastUse(states, actions, n - 1, k)
  }

  /** How one step treats the records that are there after it. */
  ghost predicate Stamped(s: P.State, a: P.Action, t: P.State) {
    forall k :: k in t.client.session ==>
      if Uses(s, a, k) then t.client.session[k].accessedAt == ClockOf(a)
      else k in s.client.session && t.client.session[k].accessedAt == s.client.session[k].accessedAt
  }

  lemma ReadStamps(s: P.State, a: P.Action, t: P.State)
    requires a.Read? && P.Step(s, a, t)
    ensures Stamped(s, a, t)
  {
    hide WriteMemory, Without, Lookup;
  }

  lemma RespondStamps(s: P.State, a: P.Action, t: P.State)
    requires a.Respond? && P.Step(s, a, t)
    ensures Stamped(s, a, t)
  {
    hide WriteMemory, AccessTime;
  }

  lemma StepStamps(s: P.State, a: P.Action, t: P.State)
    requires P.Step(s, a, t)
    ensures Stamped(s, a, t)
  {
    hide P.StepRead, P.StepRespond, Unnamed;
    match a {
      case Read(_, _, _, _) => ReadStamps(s, a, t);
      case Respond(_, _, _, _, _, _, _) => RespondStamps(s, a, t);
      case _ =>
    }
  }

  /** The time stamp in a record is the time of its last use in the run. */
  lemma {:induction false} StampIsLastUse(states: seq<P.State>, actions: seq<P.Action>, n: nat, k: Key)
    requires P.Run(states, actions) && n <= |actions| && k in states[n].client.session
    ensures LastUse(states, actions, n, k) == Some(states[n].client.session[k].accessedAt)
  {
    hide P.Step, Uses;
    if n > 0 {
      StepStamps(states[n - 1], actions[n - 1], states[n]);
      if !Uses(states[n - 1], actions[n - 1], k) { StampIsLastUse(states, actions, n - 1, k); }
    }
  }

  /** The clock of the run is past its zero, which the code takes for a missing time. */
  ghost predicate ClockRuns(actions: seq<P.Action>) {
    forall i :: 0 <= i < |actions| && (actions[i].Read? || actions[i].Respond?) ==> ClockOf(actions[i]) != 0
  }

  lemma {:induction false} LastUseIsNotZero(states: seq<P.State>, actions: seq<P.Action>, n: nat, k: Key)
    requires n <= |actions| <= |states| && ClockRuns(actions)
    ensures LastUse(states, actions, n, k) != Some(0)
  {
    if n > 0 { LastUseIsNotZero(states, actions, n - 1, k); }
  }

  /** The records between writing and pruning. */
  ghost function Full(s: P.State, a: P.Action): map<Key, Saved>
    requires Writes(s, a)
  {
    s.client.session[s.requests[a.id].key := SavedFor(s.requests[a.id].key, Entry(a.reply, a.savedAt), a.now)]
  }

  /** The time at which each of them was last used. */
  lemma FullStamps(states: seq<P.State>, actions: seq<P.Action>, n: nat, k: Key)
    requires P.Run(states, actions) && n < |actions| && Writes(states[n], actions[n]) && actions[n].fits
    requires k in Full(states[n], actions[n])
    ensures LastUse(states, actions, n + 1, k) == Some(Full(states[n], actions[n])[k].accessedAt)
  {
    hide P.Step;
    if k != states[n].requests[actions[n].id].key { StampIsLastUse(states, actions, n, k); }
  }

  /** After a write that fits, only records that have not expired remain, all of them if there are at most twelve, else
      twelve; and none that went was used later than one that stayed. */
  lemma PruneKeepsLastUsed(states: seq<P.State>, actions: seq<P.Action>, n: nat, gone: Key, kept: Key)
    requires P.Run(states, actions) && ClockRuns(actions) && n < |actions|
    requires Writes(states[n], actions[n]) && actions[n].fits
    ensures var full, after := Full(states[n], actions[n]), states[n + 1].client.session;
            var live := set k | k in full && actions[n].now < full[k].expiresAt;
            && after.Keys <= live && |after| == (if |live| > 12 then 12 else |live|)
            && (kept in after && gone in live && gone !in after ==>
                 && LastUse(states, actions, n + 1, gone).Some? && LastUse(states, actions, n + 1, kept).Some?
                 && LastUse(states, actions, n + 1, gone).value <= LastUse(states, actions, n + 1, kept).value)
  {
    var full, after := Full(states[n], actions[n]), states[n + 1].client.session;
    assert Pruned(full, after, actions[n].now);
    assert Alive(full, actions[n].now).Keys == set k | k in full && actions[n].now < full[k].expiresAt;
    if kept in after && gone in full {
      FullStamps(states, actions, n, gone);
      FullStamps(states, actions, n, kept);
      LastUseIsNotZero(states, actions, n + 1, gone);
      LastUseIsNotZero(states, actions, n + 1, kept);
    }
    hide P.Run, LastUse;
  }

  /** When the quota refuses the write, everything else goes, and the record stays alone if it fits then. */
  lemma QuotaClears(states: seq<P.State>, actions: seq<P.Action>, n: nat)
    requires P.Run(states, actions) && n < |actions| && Writes(states[n], actions[n]) && !actions[n].fits
    ensures states[n + 1].client.session.Keys ==
            if actions[n].fitsAlone then {states[n].requests[actions[n].id].key} else {}
  {
  }
}
