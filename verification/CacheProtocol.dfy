/** The conversation cache among concurrent readers, in-flight requests, mutations and storage failures:
    a state machine over single steps, interleaved in any order, and what every run of it guarantees. */
module CacheProtocol {
  import opened Common
  import opened ReadCache

  /** A request is outstanding until its `finally` has run; `done` requests only wait to be delivered. */
  datatype Phase = Pending | Settled(reply: Option<Reply>) | Done(reply: Option<Reply>)

  datatype Request = Request(key: Key, generation: nat, issued: nat, phase: Phase)

  /** A reader asks for a key and waits for a request; `after` is how many mutations had returned when the read
      began. */
  datatype Reader = Reader(request: nat, key: Key, after: nat)

  /** An OK mutation: committed as the version-th mutation of its chat. A completion that names no chat has an
      empty id here, whatever chat it changed. */
  datatype Mutation = Mutation(chatId: string, version: nat)

  /** What has come back to the page: a mutation naming a chat, or something that cleared everything while the
      origin had committed so much per chat. */
  datatype Return = Mutated(mutation: Mutation) | Cleared(origin: map<string, nat>)

  /** A reply handed to a reader; `age` only for replies served from the cache. */
  datatype Served = Served(key: Key, reply: Reply, after: nat, age: Option<int>)

  /** What the origin has committed per chat, which of it has returned here, and the last entry written per key. */
  datatype Log = Log(origin: map<string, nat>, returned: seq<Return>, last: map<Key, Entry>)

  datatype State = State(
    client: Client,
    requests: map<nat, Request>,
    nextId: nat,
    history: Log,
    committed: map<nat, Mutation>,  // committed at the origin, response not processed yet
    readers: map<nat, Reader>,
    served: seq<Served>
  )

  function Origin(h: Log, chatId: string): nat {
    if chatId in h.origin then h.origin[chatId] else 0
  }

  /** How many mutations of a chat a return promises to every later read. */
  function Promised(r: Return, chatId: string): nat {
    match r
    case Mutated(m) => if m.chatId == chatId then m.version else 0
    case Cleared(origin) => if chatId in origin then origin[chatId] else 0
  }

  const INITIAL := State(EMPTY, map[], 0, Log(map[], [], map[]), map[], map[], [])

  datatype Action =
    | Read(reader: nat, key: Key, now: int, fits: bool)
    | Respond(id: nat, reply: Reply, cacheable: bool, savedAt: int, now: int, fits: bool, fitsAlone: bool)
    | Fail(id: nat)
    | Finally(id: nat)
    | Deliver(reader: nat)
    | Commit(mutation: nat, chatId: string)
    | CommitUnnamed(mutation: nat, chatId: string)
    | CommitElsewhere(chatId: string)
    | MutationReturns(mutation: nat)
    | ClearAll
    | Reload

  // ------------------------------------------------------------------ the steps

  function Committed(h: Log, chatId: string): Log {
    h.(origin := h.origin[chatId := Origin(h, chatId) + 1])
  }

  ghost predicate Step(s: State, a: Action, t: State) {
    match a
    case Read(reader, key, now, fits) => StepRead(s, reader, key, now, fits, t)
    case Respond(id, reply, cacheable, savedAt, now, fits, fitsAlone) =>
      StepRespond(s, id, reply, cacheable, savedAt, now, fits, fitsAlone, t)
    case Fail(id) =>
      && id in s.requests && s.requests[id].phase.Pending?
      && t == s.(requests := WithPhase(s.requests, id, Settled(None)))
    case Finally(id) =>
      && id in s.requests && s.requests[id].phase.Settled?
      && t == s.(client := Finish(s.client, s.requests[id].key, id),
                 requests := WithPhase(s.requests, id, Done(s.requests[id].phase.reply)))
    case Deliver(reader) => StepDeliver(s, reader, t)
    case Commit(mutation, chatId) =>
      && chatId != "" && mutation !in s.committed
      && t == s.(history := Committed(s.history, chatId),
                 committed := s.committed[mutation := Mutation(chatId, Origin(s.history, chatId) + 1)])
    case CommitUnnamed(mutation, chatId) =>
      && mutation !in s.committed
      && t == s.(history := Committed(s.history, chatId), committed := s.committed[mutation := Mutation("", 0)])
    case CommitElsewhere(chatId) => t == s.(history := Committed(s.history, chatId))
    case MutationReturns(mutation) =>
      && mutation in s.committed
      && t == s.(client := Invalidate(s.client, s.committed[mutation].chatId),
                 committed := s.committed - {mutation},
                 history := Returned(s.history, s.committed[mutation]))
    case ClearAll =>
      t == s.(client := Invalidate(s.client, ""), history := Returned(s.history, Mutation("", 0)))
    // A page load keeps the session tier and loses everything else, the counters included.
    case Reload =>
      t == s.(client := EMPTY.(session := s.client.session), requests := map[], committed := map[], readers := map[])
  }

  /** The log of returns; what names no chat clears everything. */
  function Returned(h: Log, m: Mutation): Log {
    h.(returned := h.returned + [if m.chatId == "" then Cleared(h.origin) else Mutated(m)])
  }

  function WithPhase(requests: map<nat, Request>, id: nat, phase: Phase): map<nat, Request>
    requires id in requests
  {
    requests[id := requests[id].(phase := phase)]
  }

  function WithRequest(s: State, key: Key, client: Client): State {
    s.(client := client.(inflight := client.inflight[key := s.nextId]), nextId := s.nextId + 1,
       requests := s.requests[s.nextId := Request(key, s.client.generation, Origin(s.history, key.chatId), Pending)])
  }

  function WithReader(s: State, reader: nat, id: nat, key: Key): State {
    s.(readers := s.readers[reader := Reader(id, key, |s.history.returned|)])
  }

  function WithServed(s: State, key: Key, reply: Reply, after: nat, age: Option<int>): State {
    s.(served := s.served + [Served(key, reply, after, age)])
  }

  /** A read looks in the cache, joins the request in flight, or issues one. */
  ghost predicate StepRead(s: State, reader: nat, key: Key, now: int, fits: bool, t: State) {
    var (answer, client) := BeginRead(s.client, key, now, fits, s.nextId);
    && reader !in s.readers
    && t == match answer
            case Hit(e) => WithServed(s.(client := client), key, e.reply, |s.history.returned|, Some(now - e.savedAt))
            case Join(id) => WithReader(s.(client := client), reader, id, key)
            case Issue(id) =>
              WithReader(s.(client := client, nextId := id + 1,
                            requests := s.requests[id := Request(key, s.client.generation,
                              Origin(s.history, key.chatId), Pending)]),
                         reader, id, key)
  }

  /** The origin answers with some version current between issue and arrival; the handler may cache it. */
  ghost predicate StepRespond(s: State, id: nat, reply: Reply, cacheable: bool, savedAt: int, now: int,
                              fits: bool, fitsAlone: bool, t: State)
  {
    && id in s.requests && s.requests[id].phase.Pending?
    && var r := s.requests[id];
    && reply.key == r.key && reply.issued == r.issued <= reply.version <= Origin(s.history, r.key.chatId)
    && var entry := if cacheable then Some(Entry(reply, savedAt)) else None;
    && Settles(s.client, t.client, r.key, r.generation, entry, now, fits, fitsAlone)
    && var written := cacheable && r.generation == s.client.generation;
    t == s.(client := t.client, requests := WithPhase(s.requests, id, Settled(Some(reply))),
            history := if written then s.history.(last := s.history.last[r.key := Entry(reply, savedAt)])
              else s.history)
  }

  ghost predicate StepDeliver(s: State, reader: nat, t: State) {
    && reader in s.readers && s.readers[reader].request in s.requests
    && var r := s.requests[s.readers[reader].request];
    && r.phase.Done?
    && var u := s.(readers := s.readers - {reader});
    t == match r.phase.reply
         case None => u
         case Some(reply) => WithServed(u, s.readers[reader].key, reply, s.readers[reader].after, None)
  }

  /** states[i + 1] follows states[i] by actions[i]. */
  ghost predicate Run(states: seq<State>, actions: seq<Action>) {
    && |states| == |actions| + 1 && states[0] == INITIAL
    && forall i :: 0 <= i < |actions| ==> Step(states[i], actions[i], states[i + 1])
  }

  // ------------------------------------------------------------------ what every state keeps

  /** What the first n returns promise for the chat is among its first `version` mutations. */
  ghost predicate Shows(returned: seq<Return>, chatId: string, n: nat, version: nat) {
    n <= |returned| && forall i :: 0 <= i < n ==> Promised(returned[i], chatId) <= version
  }

  ghost predicate GoodReply(h: Log, key: Key, reply: Reply) {
    reply.key == key && reply.issued <= reply.version <= Origin(h, key.chatId)
  }

  ghost predicate GoodEntry(h: Log, k: Key, e: Entry) {
    && GoodReply(h, k, e.reply)
    && Shows(h.returned, k.chatId, |h.returned|, e.reply.issued)
    && k in h.last && h.last[k] == e
  }

  ghost predicate GoodSaved(h: Log, k: Key, saved: Saved) {
    GoodEntry(h, k, saved.entry) && saved.expiresAt == saved.entry.savedAt + Ttl(k.part)
  }

  ghost predicate InvTiers(memory: seq<Slot>, session: map<Key, Saved>, h: Log) {
    && (forall slot :: slot in memory ==> GoodEntry(h, slot.key, slot.entry))
    && (forall k :: k in session ==> GoodSaved(h, k, session[k]))
    && |memory| <= MEMORY_LIMIT && |session| <= SESSION_LIMIT
  }

  predicate Outstanding(r: Request, generation: nat) {
    r.generation == generation && !r.phase.Done?
  }

  ghost predicate InvFlight(inflight: map<Key, nat>, generation: nat, requests: map<nat, Request>) {
    && (forall k :: k in inflight ==>
         && inflight[k] in requests && requests[inflight[k]].key == k && Outstanding(requests[inflight[k]], generation))
    && (forall id :: id in requests && Outstanding(requests[id], generation) ==>
         requests[id].key in inflight && inflight[requests[id].key] == id)
  }

  ghost predicate GoodRequest(r: Request, generation: nat, h: Log) {
    && r.generation <= generation && r.issued <= Origin(h, r.key.chatId)
    && (r.generation == generation ==> Shows(h.returned, r.key.chatId, |h.returned|, r.issued))
    && (r.generation == generation && r.phase.Pending? && r.key in h.last ==> h.last[r.key].reply.version <= r.issued)
    && (!r.phase.Pending? && r.phase.reply.Some? ==>
         r.phase.reply.value.issued == r.issued && GoodReply(h, r.key, r.phase.reply.value))
  }

  ghost predicate InvRequests(requests: map<nat, Request>, generation: nat, nextId: nat, h: Log) {
    forall id :: id in requests ==> id < nextId && GoodRequest(requests[id], generation, h)
  }

  /** The origin has committed all that a return promises. */
  ghost predicate Met(r: Return, h: Log) {
    forall chatId :: Promised(r, chatId) <= Origin(h, chatId)
  }

  ghost predicate InvOrigin(h: Log, committed: map<nat, Mutation>) {
    && (forall i :: 0 <= i < |h.returned| ==> Met(h.returned[i], h))
    && (forall m :: m in committed ==> committed[m].version <= Origin(h, committed[m].chatId))
    && (forall k :: k in h.last ==> GoodReply(h, k, h.last[k].reply))
  }

  ghost predicate InvReaders(readers: map<nat, Reader>, requests: map<nat, Request>, returned: seq<Return>) {
    forall q :: q in readers ==>
      && readers[q].request in requests && requests[readers[q].request].key == readers[q].key
      && Shows(returned, readers[q].key.chatId, readers[q].after, requests[readers[q].request].issued)
  }

  /** Every reply handed out so far came from a request issued after each mutation of its chat that had
      returned before the read began; cached ones were within their time to live. */
  ghost predicate GoodServed(d: Served, returned: seq<Return>) {
    && d.reply.key == d.key
    && Shows(returned, d.key.chatId, d.after, d.reply.issued)
    && d.reply.issued <= d.reply.version
    && (d.age.Some? ==> d.age.value <= Ttl(d.key.part))
  }

  ghost predicate InvServed(served: seq<Served>, returned: seq<Return>) {
    forall i :: 0 <= i < |served| ==> GoodServed(served[i], returned)
  }

  ghost predicate Inv(s: State) {
    && InvTiers(s.client.memory, s.client.session, s.history)
    && InvFlight(s.client.inflight, s.client.generation, s.requests)
    && InvRequests(s.requests, s.client.generation, s.nextId, s.history)
    && InvOrigin(s.history, s.committed)
    && InvReaders(s.readers, s.requests, s.history.returned)
    && InvServed(s.served, s.history.returned)
  }

  // ------------------------------------------------------------------ facts about the client's functions

  lemma {:induction false} UnnamedLength(m: seq<Slot>, chatId: string)
    ensures |Unnamed(m, chatId)| <= |m|
  {
    if m != [] { UnnamedLength(m[1..], chatId); }
  }

  lemma WrittenSlots(m: seq<Slot>, k: Key, e: Entry)
    ensures |WriteMemory(m, k, e)| <= MEMORY_LIMIT
    ensures forall slot :: slot in WriteMemory(m, k, e) ==> slot == Slot(k, e) || (slot in m && slot.key != k)
  {
  }

  /** d holds only what c held, possibly copied from session to memory; no record lives longer. */
  ghost predicate HoldsLess(c: Client, d: Client) {
    && (forall slot :: slot in d.memory ==>
         slot in c.memory || (slot.key in c.session && slot.entry == c.session[slot.key].entry))
    && (forall q :: q in d.session ==>
         q in c.session && d.session[q].entry == c.session[q].entry && d.session[q].expiresAt == c.session[q].expiresAt)
    && |d.memory| <= MEMORY_LIMIT && |d.session| <= |c.session|
  }

  /** The lookup's answer was in the cache and young enough. */
  ghost predicate WasCached(c: Client, k: Key, e: Entry, now: int) {
    || (Slot(k, e) in c.memory && now - e.savedAt <= Ttl(k.part))
    || (k in c.session && e == c.session[k].entry && now < c.session[k].expiresAt)
  }

  lemma ReadSessionFacts(session: map<Key, Saved>, k: Key, now: int, fits: bool)
    ensures var (found, after) := ReadSession(session, k, now, fits);
            && |after| <= |session|
            && (forall q :: q in after ==>
                 q in session && after[q].entry == session[q].entry && after[q].expiresAt == session[q].expiresAt)
            && (found.Some? ==> k in session && found.value == session[k].entry && now < session[k].expiresAt)
  {
    SmallerMap(session - {k}, session);
    if k in session { assert (session[k := session[k].(accessedAt := now)]).Keys == session.Keys; }
  }

  lemma ReadEntryFacts(c: Client, k: Key, now: int, fits: bool)
    requires |c.memory| <= MEMORY_LIMIT
    ensures var (found, d) := ReadEntry(c, k, now, fits);
            && d.inflight == c.inflight && d.generation == c.generation && HoldsLess(c, d)
            && (found.Some? ==> WasCached(c, k, found.value, now))
  {
    hide Without, WriteMemory, ReadSession, Lookup;
    WithoutLength(c.memory, k);
    ReadSessionFacts(c.session, k, now, fits);
    var stored := ReadSession(c.session, k, now, fits).0;
    if stored.Some? { WrittenSlots(Without(c.memory, k), k, stored.value); }
  }

  lemma SmallerMap(a: map<Key, Saved>, b: map<Key, Saved>)
    requires a.Keys <= b.Keys
    ensures |a| <= |b|
  {
    var rest := b.Keys - a.Keys;
    assert b.Keys == a.Keys + rest;
  }

  lemma StoredFacts(before: map<Key, Saved>, after: map<Key, Saved>, k: Key, saved: Saved, now: int, fits: bool,
      fitsAlone: bool)
    requires Stored(before, after, k, saved, now, fits, fitsAlone)
    ensures |after| <= SESSION_LIMIT
    ensures forall q :: q in after ==> if q == k then after[q] == saved else q in before && after[q] == before[q]
  {
  }

  // ------------------------------------------------------------------ every step keeps the invariant

  lemma TiersShrink(c: Client, d: Client, h: Log)
    requires InvTiers(c.memory, c.session, h) && HoldsLess(c, d)
    ensures InvTiers(d.memory, d.session, h)
  {
    hide GoodEntry;
  }

  lemma CachedIsGood(c: Client, h: Log, k: Key, e: Entry, now: int)
    requires InvTiers(c.memory, c.session, h) && WasCached(c, k, e, now)
    ensures GoodEntry(h, k, e) && now - e.savedAt <= Ttl(k.part)
  {
    hide GoodEntry;
  }

  lemma AddServed(served: seq<Served>, returned: seq<Return>, d: Served)
    requires InvServed(served, returned) && GoodServed(d, returned)
    ensures InvServed(served + [d], returned)
  {
    hide GoodServed;
  }

  lemma AddReader(readers: map<nat, Reader>, requests: map<nat, Request>, generation: nat, nextId: nat, h: Log,
      reader: nat, key: Key, id: nat)
    requires InvReaders(readers, requests, h.returned) && InvRequests(requests, generation, nextId, h)
    requires id in requests && requests[id].generation == generation && requests[id].key == key
    ensures InvReaders(readers[reader := Reader(id, key, |h.returned|)], requests, h.returned)
  {
    hide Shows, GoodReply;
  }

  lemma NewRequestIsGood(requests: map<nat, Request>, generation: nat, nextId: nat, h: Log,
                         committed: map<nat, Mutation>, key: Key)
    requires InvRequests(requests, generation, nextId, h) && InvOrigin(h, committed)
    ensures var r := Request(key, generation, Origin(h, key.chatId), Pending);
            InvRequests(requests[nextId := r], generation, nextId + 1, h)
  {
    var r := Request(key, generation, Origin(h, key.chatId), Pending);
    assert GoodRequest(r, generation, h) by {
      assert forall i :: 0 <= i < |h.returned| ==> Met(h.returned[i], h);
    }
    hide GoodRequest;
  }

  lemma ReadersStay(readers: map<nat, Reader>, requests: map<nat, Request>, returned: seq<Return>, id: nat, r: Request)
    requires InvReaders(readers, requests, returned)
    requires id in requests ==> r.key == requests[id].key && r.issued == requests[id].issued
    ensures InvReaders(readers, requests[id := r], returned)
  {
    hide Shows;
  }

  /** A new request starts with the current generation, after everything that has returned and was stored. */
  lemma AddRequest(s: State, key: Key, client: Client)
    requires InvFlight(client.inflight, s.client.generation, s.requests) && key !in client.inflight
    requires InvRequests(s.requests, s.client.generation, s.nextId, s.history)
    requires InvOrigin(s.history, s.committed) && InvReaders(s.readers, s.requests, s.history.returned)
    ensures var t := WithRequest(s, key, client);
            && InvFlight(t.client.inflight, s.client.generation, t.requests)
            && InvRequests(t.requests, s.client.generation, t.nextId, s.history)
            && InvReaders(s.readers, t.requests, s.history.returned)
  {
    assert s.nextId !in s.requests;
    hide InvFlight, InvRequests, InvReaders, InvOrigin;
    var r := Request(key, s.client.generation, Origin(s.history, key.chatId), Pending);
    NewRequestIsGood(s.requests, s.client.generation, s.nextId, s.history, s.committed, key);
    AddToFlight(client.inflight, s.client.generation, s.requests, s.nextId, r);
    ReadersStay(s.readers, s.requests, s.history.returned, s.nextId, r);
  }

  lemma AddToFlight(inflight: map<Key, nat>, generation: nat, requests: map<nat, Request>, id: nat, r: Request)
    requires InvFlight(inflight, generation, requests) && id !in requests && r.key !in inflight &&
        Outstanding(r, generation)
    ensures InvFlight(inflight[r.key := id], generation, requests[id := r])
  {
    hide Outstanding;
  }

  lemma FlightStays(inflight: map<Key, nat>, generation: nat, requests: map<nat, Request>, id: nat, phase: Phase)
    requires InvFlight(inflight, generation, requests) && id in requests
    requires !phase.Done? && !requests[id].phase.Done?
    ensures InvFlight(inflight, generation, WithPhase(requests, id, phase))
  {
  }

  lemma RequestsStay(requests: map<nat, Request>, generation: nat, nextId: nat, h: Log, id: nat, phase: Phase)
    requires InvRequests(requests, generation, nextId, h) && id in requests && phase.Settled?
    requires phase.reply.Some? ==>
      GoodReply(h, requests[id].key, phase.reply.value) && phase.reply.value.issued == requests[id].issued
    ensures InvRequests(WithPhase(requests, id, phase), generation, nextId, h)
  {
    hide Shows, GoodReply;
    assert GoodRequest(requests[id], generation, h);
    assert GoodRequest(requests[id].(phase := phase), generation, h);
    hide GoodRequest;
  }

  /** Moving a request on to `phase` while it stays outstanding. */
  lemma PhaseKeeps(s: State, id: nat, phase: Phase)
    requires Inv(s) && id in s.requests && phase.Settled? && s.requests[id].phase.Pending?
    requires phase.reply.Some? ==>
      GoodReply(s.history, s.requests[id].key, phase.reply.value) &&
        phase.reply.value.issued == s.requests[id].issued
    ensures Inv(s.(requests := WithPhase(s.requests, id, phase)))
  {
    hide GoodReply, InvTiers, InvFlight, InvRequests, InvReaders, InvServed, InvOrigin;
    FlightStays(s.client.inflight, s.client.generation, s.requests, id, phase);
    RequestsStay(s.requests, s.client.generation, s.nextId, s.history, id, phase);
    ReadersStay(s.readers, s.requests, s.history.returned, id, s.requests[id].(phase := phase));
  }

  lemma FinishFlight(inflight: map<Key, nat>, generation: nat, requests: map<nat, Request>, id: nat,
      reply: Option<Reply>)
    requires InvFlight(inflight, generation, requests) && id in requests && requests[id].phase.Settled?
    ensures var key := requests[id].key;
            InvFlight(if key in inflight && inflight[key] == id then inflight - {key} else inflight, generation,
                      WithPhase(requests, id, Done(reply)))
  {
  }

  lemma FinallyKeeps(s: State, id: nat, t: State)
    requires Inv(s) && Step(s, Finally(id), t)
    ensures Inv(t)
  {
    hide Shows, GoodReply, InvTiers, InvServed, InvOrigin, InvFlight;
    FinishFlight(s.client.inflight, s.client.generation, s.requests, id, s.requests[id].phase.reply);
  }

  lemma ReadKeeps(s: State, reader: nat, key: Key, now: int, fits: bool, t: State)
    requires Inv(s) && StepRead(s, reader, key, now, fits, t)
    ensures Inv(t)
  {
    hide ReadEntry, HoldsLess, WasCached, InvTiers, InvFlight, InvRequests, InvReaders, InvServed, InvOrigin;
    ReadEntryFacts(s.client, key, now, fits) by { LimitOf(s); }
    var (found, d) := ReadEntry(s.client, key, now, fits);
    TiersShrink(s.client, d, s.history);
    if found.Some? {
      CachedIsGood(s.client, s.history, key, found.value, now);
      AddServed(s.served, s.history.returned,
        Served(key, found.value.reply, |s.history.returned|, Some(now - found.value.savedAt)));
    } else if key in d.inflight {
      InFlightIsCurrent(s, key);
      AddReader(s.readers, s.requests, s.client.generation, s.nextId, s.history, reader, key, d.inflight[key]);
    } else {
      AddRequest(s, key, d);
      var u := WithRequest(s, key, d);
      AddReader(u.readers, u.requests, u.client.generation, u.nextId, u.history, reader, key, s.nextId);
    }
  }

  lemma LimitOf(s: State)
    requires Inv(s)
    ensures |s.client.memory| <= MEMORY_LIMIT && |s.client.session| <= SESSION_LIMIT
  {
  }

  lemma InFlightIsCurrent(s: State, key: Key)
    requires Inv(s) && key in s.client.inflight
    ensures s.client.inflight[key] in s.requests && s.requests[s.client.inflight[key]].key == key
    ensures s.requests[s.client.inflight[key]].generation == s.client.generation
  {
  }

  /** Writing a current reply to both tiers: the entry is the newest ever stored for its key. */
  lemma WriteKeeps(s: State, id: nat, e: Entry, client: Client, now: int, fits: bool, fitsAlone: bool)
    requires Inv(s) && id in s.requests && s.requests[id].generation == s.client.generation
    requires s.requests[id].phase == Settled(Some(e.reply))
    requires Settles(s.client, client, s.requests[id].key, s.client.generation, Some(e), now, fits, fitsAlone)
    ensures Inv(s.(client := client, history := s.history.(last := s.history.last[s.requests[id].key := e])))
  {
    hide InvServed, InvReaders, InvFlight, WriteMemory, Stored;
    var key := s.requests[id].key;
    var h := s.history.(last := s.history.last[key := e]);
    WrittenSlots(s.client.memory, key, e);
    StoredFacts(s.client.session, client.session, key, SavedFor(key, e, now), now, fits, fitsAlone);
    assert GoodRequest(s.requests[id], s.client.generation, s.history);
    assert GoodEntry(h, key, e);
    WriteTiers(s.client.memory, s.client.session, s.history, key, e, client.memory, client.session);
    WriteRequests(s, id, e);
    WriteOrigin(s.history, s.committed, key, e);
  }

  lemma WriteTiers(memory: seq<Slot>, session: map<Key, Saved>, h: Log, key: Key, e: Entry,
                   memory': seq<Slot>, session': map<Key, Saved>)
    requires InvTiers(memory, session, h) && |memory'| <= MEMORY_LIMIT && |session'| <= SESSION_LIMIT
    requires GoodEntry(h.(last := h.last[key := e]), key, e)
    requires forall slot :: slot in memory' ==> slot == Slot(key, e) || (slot in memory && slot.key != key)
    requires forall q :: q in session' ==>
               if q == key then session'[q].entry == e && session'[q].expiresAt == e.savedAt + Ttl(key.part)
               else q in session && session'[q] == session[q]
    ensures InvTiers(memory', session', h.(last := h.last[key := e]))
  {
    hide Shows;
    var h' := h.(last := h.last[key := e]);
    forall q, x | q != key && GoodEntry(h, q, x) ensures GoodEntry(h', q, x) {
    }
  }

  lemma WriteRequests(s: State, id: nat, e: Entry)
    requires Inv(s) && id in s.requests && s.requests[id].generation == s.client.generation
    requires s.requests[id].phase == Settled(Some(e.reply))
    ensures InvRequests(s.requests, s.client.generation, s.nextId,
        s.history.(last := s.history.last[s.requests[id].key := e]))
  {
    hide Shows, InvTiers, InvServed, InvOrigin, InvReaders;
    var key := s.requests[id].key;
    var h := s.history.(last := s.history.last[key := e]);
    forall q | q in s.requests ensures q < s.nextId && GoodRequest(s.requests[q], s.client.generation, h) {
      assert GoodRequest(s.requests[q], s.client.generation, s.history);
      SameFlight(s.client.inflight, s.client.generation, s.requests, q, id);
    }
  }

  /** Two outstanding requests of the current generation never share a key. */
  lemma SameFlight(inflight: map<Key, nat>, generation: nat, requests: map<nat, Request>, a: nat, b: nat)
    requires InvFlight(inflight, generation, requests) && a in requests && b in requests
    ensures Outstanding(requests[a], generation) && Outstanding(requests[b], generation) ==>
              requests[a].key == requests[b].key ==> a == b
  {
  }

  lemma WriteOrigin(h: Log, committed: map<nat, Mutation>, key: Key, e: Entry)
    requires InvOrigin(h, committed) && GoodReply(h, key, e.reply)
    ensures InvOrigin(h.(last := h.last[key := e]), committed)
  {
    hide Met;
    var h' := h.(last := h.last[key := e]);
    forall r | Met(r, h) ensures Met(r, h') { MetGrows(r, h, h'); }
  }

  lemma MetGrows(r: Return, h: Log, h': Log)
    requires Met(r, h) && forall c :: Origin(h, c) <= Origin(h', c)
    ensures Met(r, h')
  {
    hide Promised;
  }

  lemma RespondKeeps(s: State, id: nat, reply: Reply, cacheable: bool, savedAt: int, now: int, fits: bool,
      fitsAlone: bool, t: State)
    requires Inv(s) && StepRespond(s, id, reply, cacheable, savedAt, now, fits, fitsAlone, t)
    ensures Inv(t)
  {
    hide InvTiers, InvFlight, InvRequests, InvReaders, InvServed, InvOrigin, Stored, WriteMemory;
    var u := s.(requests := WithPhase(s.requests, id, Settled(Some(reply))));
    PhaseKeeps(s, id, Settled(Some(reply)));
    if cacheable && s.requests[id].generation == s.client.generation {
      WriteKeeps(u, id, Entry(reply, savedAt), t.client, now, fits, fitsAlone);
    }
  }

  lemma DeliverKeeps(s: State, reader: nat, t: State)
    requires Inv(s) && StepDeliver(s, reader, t)
    ensures Inv(t)
  {
    hide InvTiers, InvFlight, InvServed, InvOrigin, GoodEntry;
    var r := s.requests[s.readers[reader].request];
    assert GoodRequest(r, s.client.generation, s.history);
    if r.phase.reply.Some? {
      var reply := r.phase.reply.value;
      AddServed(s.served, s.history.returned, Served(r.key, reply, s.readers[reader].after, None));
    }
  }

  /** Commits only raise version numbers at the origin. */
  lemma CommitKeeps(s: State, chatId: string)
    requires Inv(s)
    ensures Inv(s.(history := Committed(s.history, chatId)))
  {
    hide InvFlight, InvReaders, InvServed, Shows, Met;
    var h := Committed(s.history, chatId);
    forall r | Met(r, s.history) ensures Met(r, h) { MetGrows(r, s.history, h); }
    forall c, reply | GoodReply(s.history, c, reply) ensures GoodReply(h, c, reply) {
    }
  }

  lemma AddCommitted(s: State, mutation: nat, m: Mutation)
    requires Inv(s) && m.version <= Origin(s.history, m.chatId)
    ensures Inv(s.(committed := s.committed[mutation := m]))
  {
    hide InvTiers, InvFlight, InvRequests, InvReaders, InvServed, GoodReply;
  }

  /** Invalidation: a new generation with an empty single-flight table, and nothing left of the chat. */
  lemma InvalidateKeeps(s: State, chatId: string)
    requires Inv(s)
    ensures Inv(s.(client := Invalidate(s.client, chatId)))
    ensures var d := Invalidate(s.client, chatId);
            && (forall slot :: slot in d.memory ==> chatId != "" && slot.key.chatId != chatId)
            && (forall k :: k in d.session ==> chatId != "" && k.chatId != chatId)
  {
    hide InvTiers, InvFlight, InvRequests, InvReaders, InvServed, InvOrigin, Unnamed, HoldsLess;
    var d := Invalidate(s.client, chatId);
    LimitOf(s);
    InvalidateShrinks(s.client, chatId);
    TiersShrink(s.client, d, s.history);
    NewGeneration(s.requests, s.client.generation, s.nextId, s.history);
  }

  lemma InvalidateShrinks(c: Client, chatId: string)
    requires |c.memory| <= MEMORY_LIMIT
    ensures HoldsLess(c, Invalidate(c, chatId))
    ensures var d := Invalidate(c, chatId);
            && (forall slot :: slot in d.memory ==> chatId != "" && slot.key.chatId != chatId)
            && (forall k :: k in d.session ==> chatId != "" && k.chatId != chatId)
  {
    hide Named;
    var d := Invalidate(c, chatId);
    UnnamedLength(c.memory, chatId);
    SmallerMap(d.session, c.session);
    forall slot | slot in d.memory ensures chatId != "" && slot.key.chatId != chatId {
      EveryKeyOfTheChatIsNamed(slot.key);
    }
  }

  lemma NewGeneration(requests: map<nat, Request>, generation: nat, nextId: nat, h: Log)
    requires InvRequests(requests, generation, nextId, h)
    ensures InvRequests(requests, generation + 1, nextId, h)
    ensures InvFlight(map[], generation + 1, requests)
  {
    hide Shows, GoodReply;
    forall id | id in requests ensures !Outstanding(requests[id], generation + 1) {
      assert GoodRequest(requests[id], generation, h);
    }
  }

  lemma ReturnedTiers(memory: seq<Slot>, session: map<Key, Saved>, h: Log, r: Return)
    requires InvTiers(memory, session, h)
    requires forall slot :: slot in memory ==> Promised(r, slot.key.chatId) == 0
    requires forall k :: k in session ==> Promised(r, k.chatId) == 0
    ensures InvTiers(memory, session, h.(returned := h.returned + [r]))
  {
    hide Promised;
    var h' := h.(returned := h.returned + [r]);
    forall k, e | GoodEntry(h, k, e) && Promised(r, k.chatId) == 0 ensures GoodEntry(h', k, e) {
    }
  }

  lemma ReturnedRequests(requests: map<nat, Request>, generation: nat, nextId: nat, h: Log, r: Return)
    requires InvRequests(requests, generation, nextId, h)
    requires forall id :: id in requests ==> requests[id].generation < generation
    ensures InvRequests(requests, generation, nextId, h.(returned := h.returned + [r]))
  {
    hide Shows;
    forall id | id in requests ensures GoodRequest(requests[id], generation, h.(returned := h.returned + [r])) {
      assert GoodRequest(requests[id], generation, h);
    }
  }

  lemma ReturnedLogs(s: State, r: Return)
    requires InvReaders(s.readers, s.requests, s.history.returned) && InvServed(s.served, s.history.returned)
    ensures InvReaders(s.readers, s.requests, s.history.returned + [r])
    ensures InvServed(s.served, s.history.returned + [r])
  {
    hide Promised;
    forall c, n, v | Shows(s.history.returned, c, n, v) ensures Shows(s.history.returned + [r], c, n, v) {
    }
    hide Shows;
  }

  lemma ReturnedOrigin(h: Log, committed: map<nat, Mutation>, r: Return)
    requires InvOrigin(h, committed) && Met(r, h)
    ensures InvOrigin(h.(returned := h.returned + [r]), committed)
  {
    hide GoodReply, Met;
    var h' := h.(returned := h.returned + [r]);
    forall q | Met(q, h) ensures Met(q, h') { MetGrows(q, h, h'); }
    forall c, reply | GoodReply(h, c, reply) ensures GoodReply(h', c, reply) { SameOrigin(h, h', c, reply); }
  }

  lemma SameOrigin(h: Log, h': Log, c: Key, reply: Reply)
    requires h'.origin == h.origin && GoodReply(h, c, reply)
    ensures GoodReply(h', c, reply)
  {
  }

  /** What a return promises is committed, and nothing that survives its invalidation is concerned by it. */
  lemma PromiseIsKept(h: Log, m: Mutation, c: Client)
    requires m.chatId != "" ==> m.version <= Origin(h, m.chatId)
    requires forall slot :: slot in c.memory ==> m.chatId != "" && slot.key.chatId != m.chatId
    requires forall k :: k in c.session ==> m.chatId != "" && k.chatId != m.chatId
    ensures var r := if m.chatId == "" then Cleared(h.origin) else Mutated(m);
            && Met(r, h)
            && (forall slot :: slot in c.memory ==> Promised(r, slot.key.chatId) == 0)
            && (forall k :: k in c.session ==> Promised(r, k.chatId) == 0)
  {
  }

  /** Processing a return, named or not: invalidate, then log it. */
  lemma ForgetKeeps(s: State, m: Mutation)
    requires Inv(s) && (m.chatId != "" ==> m.version <= Origin(s.history, m.chatId))
    ensures Inv(s.(client := Invalidate(s.client, m.chatId), history := Returned(s.history, m)))
  {
    hide InvTiers, InvRequests, InvFlight, InvReaders, InvServed, InvOrigin, Unnamed, Promised, Met;
    var r := if m.chatId == "" then Cleared(s.history.origin) else Mutated(m);
    var u := s.(client := Invalidate(s.client, m.chatId));
    InvalidateKeeps(s, m.chatId);
    OlderGenerations(s);
    PromiseIsKept(s.history, m, u.client);
    ReturnedTiers(u.client.memory, u.client.session, s.history, r);
    ReturnedRequests(s.requests, s.client.generation + 1, s.nextId, s.history, r);
    ReturnedLogs(u, r);
    ReturnedOrigin(s.history, s.committed, r);
  }

  lemma ReturnKeeps(s: State, mutation: nat, t: State)
    requires Inv(s) && Step(s, MutationReturns(mutation), t)
    ensures Inv(t)
  {
    hide InvTiers, InvRequests, InvFlight, InvReaders, InvServed, InvOrigin, Invalidate, Returned;
    CommittedIsBounded(s, mutation);
    ForgetKeeps(s, s.committed[mutation]);
    FewerCommitted(t.history, s.committed, mutation);
  }

  lemma FewerCommitted(h: Log, committed: map<nat, Mutation>, mutation: nat)
    requires InvOrigin(h, committed)
    ensures InvOrigin(h, committed - {mutation})
  {
  }

  lemma OlderGenerations(s: State)
    requires Inv(s)
    ensures forall id :: id in s.requests ==> s.requests[id].generation < s.client.generation + 1
  {
    hide Shows, GoodReply;
    forall id | id in s.requests ensures s.requests[id].generation < s.client.generation + 1 {
      assert GoodRequest(s.requests[id], s.client.generation, s.history);
    }
  }

  lemma CommittedIsBounded(s: State, mutation: nat)
    requires Inv(s) && mutation in s.committed
    ensures s.committed[mutation].version <= Origin(s.history, s.committed[mutation].chatId)
  {
  }

  lemma ReloadKeeps(s: State, t: State)
    requires Inv(s) && Step(s, Reload, t)
    ensures Inv(t)
  {
    hide GoodSaved, GoodServed, GoodReply;
  }

  lemma StepKeeps(s: State, a: Action, t: State)
    requires Inv(s) && Step(s, a, t)
    ensures Inv(t)
  {
    hide Inv, StepRead, StepRespond, StepDeliver, Finish, Invalidate;
    match a
    case Read(reader, key, now, fits) => ReadKeeps(s, reader, key, now, fits, t);
    case Respond(id, reply, cacheable, savedAt, now, fits, fitsAlone) =>
      RespondKeeps(s, id, reply, cacheable, savedAt, now, fits, fitsAlone, t);
    case Fail(id) => PhaseKeeps(s, id, Settled(None));
    case Finally(id) => FinallyKeeps(s, id, t);
    case Deliver(reader) => DeliverKeeps(s, reader, t);
    case Commit(mutation, chatId) =>
      CommitKeeps(s, chatId);
      AddCommitted(s.(history := Committed(s.history, chatId)), mutation,
        Mutation(chatId, Origin(s.history, chatId) + 1));
    case CommitUnnamed(mutation, chatId) =>
      CommitKeeps(s, chatId);
      AddCommitted(s.(history := Committed(s.history, chatId)), mutation, Mutation("", 0));
    case CommitElsewhere(chatId) => CommitKeeps(s, chatId);
    case MutationReturns(mutation) => ReturnKeeps(s, mutation, t);
    case ClearAll => ForgetKeeps(s, Mutation("", 0));
    case Reload => ReloadKeeps(s, t);
  }

  // ------------------------------------------------------------------ what every run guarantees

  lemma InitialHolds()
    ensures Inv(INITIAL)
  {
  }

  lemma {:induction false} RunKeeps(states: seq<State>, actions: seq<Action>, n: nat)
    requires Run(states, actions) && n < |states|
    ensures Inv(states[n])
  {
    hide Inv, Step;
    InitialHolds();
    if n > 0 {
      RunKeeps(states, actions, n - 1);
      StepKeeps(states[n - 1], actions[n - 1], states[n]);
    }
  }

  /** Read-your-writes: whatever a reader is handed, from memory, session or network, comes from a request
      issued after every mutation of its chat that had returned before the read began. */
  lemma ReadYourWrites(states: seq<State>, actions: seq<Action>, n: nat, d: nat, m: nat)
    requires Run(states, actions) && n < |states| && d < |states[n].served|
    requires m < states[n].served[d].after
    ensures states[n].served[d].after <= |states[n].history.returned|
    ensures var r, served := states[n].history.returned[m], states[n].served[d];
            && served.reply.key == served.key
            && (r.Mutated? && r.mutation.chatId == served.key.chatId ==>
                 r.mutation.version <= served.reply.issued <= served.reply.version)
  {
    hide GoodReply, GoodEntry, InvTiers;
    RunKeeps(states, actions, n);
    assert GoodServed(states[n].served[d], states[n].history.returned);
  }

  /** What clears everything (a completion that names no chat, signing out) is final too: a read that begins
      after it is served only from requests issued after all that was committed by then, in every chat. */
  lemma ClearedIsForgotten(states: seq<State>, actions: seq<Action>, n: nat, d: nat, m: nat)
    requires Run(states, actions) && n < |states| && d < |states[n].served|
    requires m < states[n].served[d].after
    ensures states[n].served[d].after <= |states[n].history.returned|
    ensures var r, served := states[n].history.returned[m], states[n].served[d];
            r.Cleared? && served.key.chatId in r.origin ==> r.origin[served.key.chatId] <= served.reply.issued
  {
    hide GoodReply, GoodEntry, InvTiers;
    RunKeeps(states, actions, n);
    assert GoodServed(states[n].served[d], states[n].history.returned);
  }

  /** Every reader waits for a request of the very resource it asked for, and whatever any reader is handed, from
      memory, session or network, is a reply to a request of that resource. */
  lemma EveryReaderGetsItsOwn(states: seq<State>, actions: seq<Action>, n: nat, q: nat, d: nat)
    requires Run(states, actions) && n < |states|
    ensures var s := states[n];
            && (q in s.readers ==>
                 s.readers[q].request in s.requests && s.requests[s.readers[q].request].key == s.readers[q].key)
            && (d < |s.served| ==> s.served[d].reply.key == s.served[d].key)
  {
    hide GoodReply, GoodEntry, InvTiers, Shows;
    RunKeeps(states, actions, n);
    if d < |states[n].served| { assert GoodServed(states[n].served[d], states[n].history.returned); }
  }

  /** Nothing is served from the cache at an age above its time to live, promoted or not. */
  lemma NothingServedTooOld(states: seq<State>, actions: seq<Action>, n: nat, d: nat)
    requires Run(states, actions) && n < |states| && d < |states[n].served|
    ensures states[n].served[d].age.Some? ==>
              states[n].served[d].age.value <= if states[n].served[d].key.part.Tasks? then 30000 else 600000
  {
    RunKeeps(states, actions, n);
    assert GoodServed(states[n].served[d], states[n].history.returned);
  }

  /** Two-tier coherence, whatever the quota did: a key held in both tiers has one body and one save time,
      those of the last write; and both tiers stay within their limits. */
  lemma TiersAgree(states: seq<State>, actions: seq<Action>, n: nat, k: Key)
    requires Run(states, actions) && n < |states|
    ensures var c := states[n].client;
            && |c.memory| <= 36 && |c.session| <= 12
            && (Lookup(c.memory, k).Some? ==>
              k in states[n].history.last && Lookup(c.memory, k).value == states[n].history.last[k])
            && (k in c.session ==> k in states[n].history.last && c.session[k].entry == states[n].history.last[k])
            && (Lookup(c.memory, k).Some? && k in c.session ==> Lookup(c.memory, k).value == c.session[k].entry)
  {
    RunKeeps(states, actions, n);
  }

  /** Single flight: per key at most one request of the current generation is outstanding. */
  lemma SingleFlight(states: seq<State>, actions: seq<Action>, n: nat, a: nat, b: nat)
    requires Run(states, actions) && n < |states|
    requires a in states[n].requests && b in states[n].requests
    requires states[n].requests[a].key == states[n].requests[b].key
    requires Outstanding(states[n].requests[a], states[n].client.generation)
    requires Outstanding(states[n].requests[b], states[n].client.generation)
    ensures a == b
  {
    RunKeeps(states, actions, n);
    SameFlight(states[n].client.inflight, states[n].client.generation, states[n].requests, a, b);
  }

  /** The `finally` of a request from an older generation never removes an entry of the table. */
  lemma OldFinallyIsSilent(states: seq<State>, actions: seq<Action>, n: nat, id: nat, t: State)
    requires Run(states, actions) && n < |states| && id in states[n].requests
    requires states[n].requests[id].generation != states[n].client.generation && Step(states[n], Finally(id), t)
    ensures t.client == states[n].client
  {
    RunKeeps(states, actions, n);
  }

  /** The origin version stored under a key never goes backwards, over any stretch of a run. */
  lemma {:induction false} StoredVersionsGrow(states: seq<State>, actions: seq<Action>, i: nat, j: nat, k: Key)
    requires Run(states, actions) && i <= j < |states| && k in states[i].history.last
    ensures k in states[j].history.last
    ensures states[i].history.last[k].reply.version <= states[j].history.last[k].reply.version
    decreases j
  {
    hide Inv, Step;
    if i < j {
      StoredVersionsGrow(states, actions, i, j - 1, k);
      RunKeeps(states, actions, j - 1);
      LastGrows(states[j - 1], actions[j - 1], states[j], k);
    }
  }

  lemma LastGrows(s: State, a: Action, t: State, k: Key)
    requires Inv(s) && Step(s, a, t) && k in s.history.last
    ensures k in t.history.last && s.history.last[k].reply.version <= t.history.last[k].reply.version
  {
    hide Shows, Settles, BeginRead, InvTiers, InvServed, InvReaders, InvFlight, Invalidate;
    if a.Respond? { assert GoodRequest(s.requests[a.id], s.client.generation, s.history); }
  }
}
