/** The sidebar side of the client read cache: stale-while-revalidate over session storage, with one-shot
    delivery of changed results, as a client and as a protocol of single interleaved steps. */
module Sidebar {
  import opened Common

  datatype Kind = Chats | Pinned | Tags | Folders | SharedFolders | PinnedNotes

  datatype Key = Key(scope: string, url: string, kind: Kind)

  /** A stored result. `request` is the request it came from, `key` what that request asked for and `epoch` how many
      invalidations it was issued after. */
  datatype Entry = Entry(body: string, savedAt: int, request: nat, epoch: nat, key: Key)

  const REVALIDATE_AFTER := 15000
  const MAX_STALE := 21600000

  datatype Client = Client(
    store: map<Key, Entry>,
    inflight: map<Key, nat>,
    revalidating: map<Key, nat>,
    changed: map<Key, Entry>,
    generation: nat
  )

  const EMPTY := Client(map[], map[], map[], map[], 0)

  // ------------------------------------------------------------------ the client's steps

  /** What a read does at once: deliver a changed result, serve the store (and perhaps ask again), join, or issue. */
  datatype Answer =
    | Deliver(entry: Entry)
    | Hit(entry: Entry, revalidate: bool)
    | Join(request: nat)
    | Issue

  /** `id` is the identity a new request would get. */
  function BeginRead(c: Client, k: Key, now: int, id: nat): (Answer, Client) {
    if k in c.changed then (Deliver(c.changed[k]), c.(changed := c.changed - {k}))
    else if k in c.store && now - c.store[k].savedAt <= MAX_STALE then
      var again := now - c.store[k].savedAt > REVALIDATE_AFTER && k !in c.revalidating;
      (Hit(c.store[k], again), if again then c.(revalidating := c.revalidating[k := id]) else c)
    else
      var d := c.(store := c.store - {k});
      if k in d.inflight then (Join(d.inflight[k]), d) else (Issue, d.(inflight := d.inflight[k := id]))
  }

  /** writeSidebarEntry: on quota failure all sidebar records go and the write is tried once more. */
  function Written(store: map<Key, Entry>, k: Key, e: Entry, fits: bool, fitsAlone: bool): map<Key, Entry> {
    if fits then store[k := e] else if fitsAlone then map[k := e] else map[]
  }

  predicate Announced(kind: Kind) {
    kind == Chats || kind == Pinned
  }

  /** The handler of a response; `previous` is the body a revalidation started from. */
  function Settle(c: Client, k: Key, generation: nat, previous: Option<string>, e: Option<Entry>, fits: bool,
      fitsAlone: bool): Client
  {
    if e.None? || generation != c.generation then c
    else
      var d := c.(store := Written(c.store, k, e.value, fits, fitsAlone));
      var announce := previous.Some? && e.value.body != previous.value && Announced(k.kind);
      if announce then d.(changed := d.changed[k := e.value]) else d
  }

  function Removed(table: map<Key, nat>, k: Key, id: nat): map<Key, nat> {
    if k in table && table[k] == id then table - {k} else table
  }

  function Finish(c: Client, k: Key, id: nat, revalidation: bool): Client {
    if revalidation then c.(revalidating := Removed(c.revalidating, k, id))
    else c.(inflight := Removed(c.inflight, k, id))
  }

  /** Issuing a first load, or a revalidation, and finishing it leaves its table as it was; finishing any other
      promise of the key leaves the registered one alone, and the other table is not concerned. */
  lemma FinishUndoesIssue(c: Client, k: Key, now: int, id: nat, other: nat)
    ensures var (answer, d) := BeginRead(c, k, now, id);
            && (answer.Issue? ==>
                 && k in d.inflight && d.inflight[k] == id && Finish(d, k, id, false).inflight == c.inflight
                 && Finish(d, k, id, false).revalidating == c.revalidating
                 && (other != id ==> Finish(d, k, other, false) == d))
            && (answer.Hit? && answer.revalidate ==>
                 && k in d.revalidating && d.revalidating[k] == id &&
                   Finish(d, k, id, true).revalidating == c.revalidating
                 && Finish(d, k, id, true).inflight == c.inflight
                 && (other != id ==> Finish(d, k, other, true) == d))
  {
    var (answer, d) := BeginRead(c, k, now, id);
    assert k !in c.inflight ==> c.inflight[k := id] - {k} == c.inflight;
    assert k !in c.revalidating ==> c.revalidating[k := id] - {k} == c.revalidating;
  }

  function Invalidate(c: Client): Client {
    Client(map[], map[], map[], map[], c.generation + 1)
  }

  // ------------------------------------------------------------------ the program

  class SidebarCache {
    var store: map<Key, Entry>
    var inflight: map<Key, nat>
    var revalidating: map<Key, nat>
    var changed: map<Key, Entry>
    var generation: nat

    function View(): Client
      reads this
    {
      Client(store, inflight, revalidating, changed, generation)
    }

    constructor ()
      ensures View() == EMPTY
    {
      store, inflight, revalidating, changed, generation := map[], map[], map[], map[], 0;
    }

    method ReadSidebarEntry(key: Key, now: int) returns (found: Option<Entry>)
      modifies this`store
      ensures found == if key in old(store) && now - old(store)[key].savedAt <= MAX_STALE
                       then Some(old(store)[key]) else None
      ensures store == if found.Some? then old(store) else old(store) - {key}
    {
      if key !in store || now - store[key].savedAt > MAX_STALE {
        store := store - {key};
        return None;
      }
      return Some(store[key]);
    }

    method BeginSidebarRead(key: Key, now: int, id: nat) returns (answer: Answer)
      modifies this
      ensures (answer, View()) == BeginRead(old(View()), key, now, id)
    {
      if key in changed {
        var delivery := changed[key];
        changed := changed - {key};
        return Deliver(delivery);
      }
      var cached := ReadSidebarEntry(key, now);
      if cached.Some? {
        if now - cached.value.savedAt > REVALIDATE_AFTER && key !in revalidating {
          revalidating := revalidating[key := id];
          return Hit(cached.value, true);
        }
        return Hit(cached.value, false);
      }
      if key in inflight { return Join(inflight[key]); }
      inflight := inflight[key := id];
      return Issue;
    }

    method RemoveSidebarEntries()
      modifies this`store
      ensures store == map[]
    {
      var todo := store.Keys;
      while todo != {}
        invariant store.Keys == todo
        decreases todo
      {
        var key :| key in todo;
        store := store - {key};
        todo := todo - {key};
      }
    }

    method WriteSidebarEntry(key: Key, entry: Entry, fits: bool, fitsAlone: bool) returns (ok: bool)
      modifies this`store
      ensures store == Written(old(store), key, entry, fits, fitsAlone) && ok == (fits || fitsAlone)
    {
      if fits {
        store := store[key := entry];
        return true;
      }
      RemoveSidebarEntries();
      if fitsAlone {
        store := store[key := entry];
        return true;
      }
      return false;
    }

    method HandleSidebarResponse(key: Key, issuedIn: nat, previous: Option<string>, entry: Option<Entry>, fits: bool,
        fitsAlone: bool)
      modifies this
      ensures View() == Settle(old(View()), key, issuedIn, previous, entry, fits, fitsAlone)
    {
      if entry.None? || issuedIn != generation { return; }
      var ok := WriteSidebarEntry(key, entry.value, fits, fitsAlone);
      if previous.Some? && entry.value.body != previous.value && (key.kind == Chats || key.kind == Pinned) {
        changed := changed[key := entry.value];
      }
    }

    method FinishSidebarRequest(key: Key, id: nat, revalidation: bool)
      modifies this
      ensures View() == Finish(old(View()), key, id, revalidation)
      ensures !revalidation && key in inflight ==> inflight[key] != id
      ensures revalidation && key in revalidating ==> revalidating[key] != id
    {
      if revalidation {
        if key in revalidating && revalidating[key] == id { revalidating := revalidating - {key}; }
      } else {
        if key in inflight && inflight[key] == id { inflight := inflight - {key}; }
      }
    }

    method InvalidateSidebarSnapshots()
      modifies this
      ensures View() == Invalidate(old(View()))
    {
      generation := generation + 1;
      inflight := map[];
      revalidating := map[];
      changed := map[];
      RemoveSidebarEntries();
    }
  }

  // ------------------------------------------------------------------ the protocol

  datatype Phase = Pending | Settled(body: Option<string>) | Done(body: Option<string>)

  /** `previous` is set for revalidations. */
  datatype Request = Request(key: Key, previous: Option<string>, generation: nat, epoch: nat, phase: Phase)

  /** A reader waiting for a request, with the number of invalidations before its read began and what it asked. */
  datatype Reader = Reader(request: nat, epoch: nat, key: Key)

  datatype How = FromStore(age: int) | OneShot | FromNetwork

  /** Something handed to a reader: the request it came from, that request's epoch, and the read's; and what the
      reader asked for next to what the request had asked for. */
  datatype Served = Served(request: nat, issued: nat, began: nat, how: How, asked: Key, got: Key)

  datatype State = State(
    client: Client,
    requests: map<nat, Request>,
    nextId: nat,
    epoch: nat,          // how many invalidations there have been, over all page loads
    readers: map<nat, Reader>,
    served: seq<Served>
  )

  const INITIAL := State(EMPTY, map[], 0, 0, map[], [])

  datatype Action =
    | Read(reader: nat, key: Key, now: int)
    | Respond(id: nat, body: string, cacheable: bool, savedAt: int, fits: bool, fitsAlone: bool)
    | Fail(id: nat)
    | Finally(id: nat)
    | HandOver(reader: nat)
    | InvalidateAll
    | Reload

  function WithRequest(s: State, k: Key, previous: Option<string>, client: Client): State {
    s.(client := client, nextId := s.nextId + 1,
       requests := s.requests[s.nextId := Request(k, previous, s.client.generation, s.epoch, Pending)])
  }

  function WithServed(s: State, d: Served): State {
    s.(served := s.served + [d])
  }

  function WithPhase(s: State, id: nat, phase: Phase): State
    requires id in s.requests
  {
    s.(requests := s.requests[id := s.requests[id].(phase := phase)])
  }

  ghost predicate StepRead(s: State, reader: nat, key: Key, now: int, t: State) {
    var (answer, client) := BeginRead(s.client, key, now, s.nextId);
    && reader !in s.readers
    && t == match answer
            case Deliver(e) =>
              WithServed(s.(client := client), Served(e.request, e.epoch, s.epoch, OneShot, key, e.key))
            case Hit(e, again) =>
              WithServed(if again then WithRequest(s, key, Some(e.body), client) else s.(client := client),
                         Served(e.request, e.epoch, s.epoch, FromStore(now - e.savedAt), key, e.key))
            case Join(id) => s.(client := client, readers := s.readers[reader := Reader(id, s.epoch, key)])
            case Issue =>
              WithRequest(s, key, None, client).(readers := s.readers[reader := Reader(s.nextId, s.epoch, key)])
  }

  ghost predicate Step(s: State, a: Action, t: State) {
    match a
    case Read(reader, key, now) => StepRead(s, reader, key, now, t)
    case Respond(id, body, cacheable, savedAt, fits, fitsAlone) =>
      && id in s.requests && s.requests[id].phase.Pending?
      && var r := s.requests[id];
      var entry := if cacheable then Some(Entry(body, savedAt, id, r.epoch, r.key)) else None;
      t == WithPhase(s, id, Settled(Some(body))).(
             client := Settle(s.client, r.key, r.generation, r.previous, entry, fits, fitsAlone))
    case Fail(id) =>
      id in s.requests && s.requests[id].phase.Pending? && t == WithPhase(s, id, Settled(None))
    case Finally(id) =>
      && id in s.requests && s.requests[id].phase.Settled?
      && t == WithPhase(s, id, Done(s.requests[id].phase.body)).(
                client := Finish(s.client, s.requests[id].key, id, s.requests[id].previous.Some?))
    case HandOver(reader) =>
      && reader in s.readers && s.readers[reader].request in s.requests
      && var q := s.readers[reader];
      && var r := s.requests[q.request];
      && r.phase.Done?
      && var u := s.(readers := s.readers - {reader});
      t == if r.phase.body.None? then u
           else WithServed(u, Served(q.request, r.epoch, q.epoch, FromNetwork, q.key, r.key))
    case InvalidateAll => t == s.(client := Invalidate(s.client), epoch := s.epoch + 1)
    // A page load keeps the session records and loses everything else.
    case Reload => t == s.(client := EMPTY.(store := s.client.store), requests := map[], readers := map[])
  }

  ghost predicate Run(states: seq<State>, actions: seq<Action>) {
    && |states| == |actions| + 1 && states[0] == INITIAL
    && forall i :: 0 <= i < |actions| ==> Step(states[i], actions[i], states[i + 1])
  }

  // ------------------------------------------------------------------ what every state keeps

  /** Everything the client holds was asked for after the last invalidation, and under its own key. */
  ghost predicate InvEpoch(store: map<Key, Entry>, changed: map<Key, Entry>, epoch: nat) {
    && (forall k :: k in store ==> store[k].epoch == epoch && store[k].key == k)
    && (forall k :: k in changed ==> changed[k].epoch == epoch && changed[k].key == k)
  }

  predicate Outstanding(r: Request, generation: nat, revalidation: bool) {
    r.generation == generation && !r.phase.Done? && r.previous.Some? == revalidation
  }

  ghost predicate InvTable(table: map<Key, nat>, generation: nat, requests: map<nat, Request>, revalidation: bool) {
    && (forall k :: k in table ==>
         && table[k] in requests && requests[table[k]].key == k &&
           Outstanding(requests[table[k]], generation, revalidation))
    && (forall id :: id in requests && Outstanding(requests[id], generation, revalidation) ==>
         requests[id].key in table && table[requests[id].key] == id)
  }

  ghost predicate InvRequests(requests: map<nat, Request>, generation: nat, nextId: nat, epoch: nat) {
    forall id :: id in requests ==>
      && id < nextId && requests[id].generation <= generation
      && (requests[id].generation == generation ==> requests[id].epoch == epoch)
  }

  ghost predicate InvReaders(readers: map<nat, Reader>, requests: map<nat, Request>) {
    forall q :: q in readers ==>
      && readers[q].request in requests && readers[q].epoch <= requests[readers[q].request].epoch
      && requests[readers[q].request].key == readers[q].key
  }

  ghost predicate InvServed(served: seq<Served>) {
    forall i :: 0 <= i < |served| ==>
      && served[i].began <= served[i].issued && served[i].asked == served[i].got
      && (served[i].how.FromStore? ==> served[i].how.age <= MAX_STALE)
  }

  /** Results waiting for one-shot delivery, and those delivered, are settled and all distinct. */
  ghost predicate InvOneShot(changed: map<Key, Entry>, served: seq<Served>, requests: map<nat, Request>, nextId: nat) {
    && (forall k :: k in changed ==> Spent(changed[k].request, requests, nextId))
    && (forall k, l :: k in changed && l in changed && k != l ==> changed[k].request != changed[l].request)
    && (forall i :: 0 <= i < |served| && served[i].how.OneShot? ==> Spent(served[i].request, requests, nextId))
    && (forall i, k :: 0 <= i < |served| && served[i].how.OneShot? && k in changed ==>
      served[i].request != changed[k].request)
    && (forall i, j :: 0 <= i < j < |served| && served[i].how.OneShot? && served[j].how.OneShot? ==>
         served[i].request != served[j].request)
  }

  predicate Spent(id: nat, requests: map<nat, Request>, nextId: nat) {
    id < nextId && (id in requests ==> !requests[id].phase.Pending?)
  }

  ghost predicate Inv(s: State) {
    && InvEpoch(s.client.store, s.client.changed, s.epoch)
    && InvTable(s.client.inflight, s.client.generation, s.requests, false)
    && InvTable(s.client.revalidating, s.client.generation, s.requests, true)
    && InvRequests(s.requests, s.client.generation, s.nextId, s.epoch)
    && InvReaders(s.readers, s.requests)
    && InvServed(s.served)
    && InvOneShot(s.client.changed, s.served, s.requests, s.nextId)
  }

  // ------------------------------------------------------------------ every step keeps it

  lemma AddToTable(table: map<Key, nat>, generation: nat, requests: map<nat, Request>, revalidation: bool, id: nat,
      r: Request)
    requires InvTable(table, generation, requests, revalidation) && id !in requests && r.key !in table
    requires Outstanding(r, generation, revalidation)
    ensures InvTable(table[r.key := id], generation, requests[id := r], revalidation)
  {
    hide Outstanding;
  }

  lemma AddElsewhere(table: map<Key, nat>, generation: nat, requests: map<nat, Request>, revalidation: bool, id: nat,
      r: Request)
    requires InvTable(table, generation, requests, revalidation) && id !in requests
    requires !Outstanding(r, generation, revalidation)
    ensures InvTable(table, generation, requests[id := r], revalidation)
  {
    hide Outstanding;
  }

  lemma AddRequest(s: State, k: Key, previous: Option<string>, client: Client)
    requires InvTable(s.client.inflight, s.client.generation, s.requests, false)
    requires InvTable(s.client.revalidating, s.client.generation, s.requests, true)
    requires InvRequests(s.requests, s.client.generation, s.nextId, s.epoch)
    requires InvReaders(s.readers, s.requests) && InvOneShot(s.client.changed, s.served, s.requests, s.nextId)
    requires client.changed == s.client.changed && client.generation == s.client.generation
    requires previous.None? ==> client.revalidating == s.client.revalidating && k !in s.client.inflight
                                && client.inflight == s.client.inflight[k := s.nextId]
    requires previous.Some? ==> client.inflight == s.client.inflight && k !in s.client.revalidating
                                && client.revalidating == s.client.revalidating[k := s.nextId]
    ensures var t := WithRequest(s, k, previous, client);
            && InvTable(t.client.inflight, t.client.generation, t.requests, false)
            && InvTable(t.client.revalidating, t.client.generation, t.requests, true)
            && InvRequests(t.requests, t.client.generation, t.nextId, t.epoch)
            && InvReaders(t.readers, t.requests) && InvOneShot(t.client.changed, t.served, t.requests, t.nextId)
  {
    hide InvTable, InvOneShot, InvReaders;
    var r := Request(k, previous, s.client.generation, s.epoch, Pending);
    assert s.nextId !in s.requests;
    if previous.None? {
      AddToTable(s.client.inflight, s.client.generation, s.requests, false, s.nextId, r);
      AddElsewhere(s.client.revalidating, s.client.generation, s.requests, true, s.nextId, r);
    } else {
      AddToTable(s.client.revalidating, s.client.generation, s.requests, true, s.nextId, r);
      AddElsewhere(s.client.inflight, s.client.generation, s.requests, false, s.nextId, r);
    }
    MoreReaders(s.readers, s.requests, s.nextId, r);
    MoreOneShot(s.client.changed, s.served, s.requests, s.nextId, r);
  }

  lemma MoreReaders(readers: map<nat, Reader>, requests: map<nat, Request>, id: nat, r: Request)
    requires InvReaders(readers, requests) && id !in requests
    ensures InvReaders(readers, requests[id := r])
  {
  }

  lemma MoreOneShot(changed: map<Key, Entry>, served: seq<Served>, requests: map<nat, Request>, id: nat, r: Request)
    requires InvOneShot(changed, served, requests, id) && id !in requests
    ensures InvOneShot(changed, served, requests[id := r], id + 1)
  {
    forall q | Spent(q, requests, id) ensures Spent(q, requests[id := r], id + 1) {
    }
    hide Spent;
  }

  lemma AddServed(served: seq<Served>, d: Served)
    requires InvServed(served) && d.began <= d.issued && d.asked == d.got
    requires d.how.FromStore? ==> d.how.age <= MAX_STALE
    ensures InvServed(served + [d])
  {
  }

  lemma AddPlainServed(changed: map<Key, Entry>, served: seq<Served>, requests: map<nat, Request>, nextId: nat,
      d: Served)
    requires InvOneShot(changed, served, requests, nextId) && !d.how.OneShot?
    ensures InvOneShot(changed, served + [d], requests, nextId)
  {
    hide Spent;
  }

  lemma AddOneShot(changed: map<Key, Entry>, served: seq<Served>, requests: map<nat, Request>, nextId: nat, k: Key,
      d: Served)
    requires InvOneShot(changed, served, requests, nextId) && k in changed && d.request == changed[k].request
    ensures InvOneShot(changed - {k}, served + [d], requests, nextId)
  {
    hide Spent;
  }

  lemma ReadKeeps(s: State, reader: nat, key: Key, now: int, t: State)
    requires Inv(s) && StepRead(s, reader, key, now, t)
    ensures Inv(t)
  {
    hide InvTable, InvRequests, InvReaders, InvServed, InvOneShot;
    var (answer, client) := BeginRead(s.client, key, now, s.nextId);
    match answer
    case Deliver(e) =>
      var d := Served(e.request, e.epoch, s.epoch, OneShot, key, e.key);
      AddServed(s.served, d);
      AddOneShot(s.client.changed, s.served, s.requests, s.nextId, key, d);
    case Hit(e, again) =>
      var d := Served(e.request, e.epoch, s.epoch, FromStore(now - e.savedAt), key, e.key);
      AddServed(s.served, d);
      if again {
        AddRequest(s, key, Some(e.body), client);
        var u := WithRequest(s, key, Some(e.body), client);
        AddPlainServed(u.client.changed, u.served, u.requests, u.nextId, d);
      } else {
        AddPlainServed(s.client.changed, s.served, s.requests, s.nextId, d);
      }
    case Join(id) =>
      JoinReader(s, reader, key);
    case Issue =>
      AddRequest(s, key, None, client);
      IssueReader(WithRequest(s, key, None, client), reader, s.nextId, key);
  }

  lemma JoinReader(s: State, reader: nat, key: Key)
    requires Inv(s) && key in s.client.inflight
    ensures InvReaders(s.readers[reader := Reader(s.client.inflight[key], s.epoch, key)], s.requests)
  {
    hide InvOneShot, InvServed, InvEpoch;
  }

  lemma IssueReader(t: State, reader: nat, id: nat, key: Key)
    requires InvReaders(t.readers, t.requests) && id in t.requests && t.requests[id].epoch == t.epoch
    requires t.requests[id].key == key
    ensures InvReaders(t.readers[reader := Reader(id, t.epoch, key)], t.requests)
  {
  }

  lemma TablePhase(table: map<Key, nat>, generation: nat, requests: map<nat, Request>, revalidation: bool, id: nat,
      body: Option<string>)
    requires InvTable(table, generation, requests, revalidation) && id in requests && requests[id].phase.Pending?
    ensures InvTable(table, generation, requests[id := requests[id].(phase := Settled(body))], revalidation)
  {
  }

  lemma OneShotPhase(changed: map<Key, Entry>, served: seq<Served>, requests: map<nat, Request>, nextId: nat, id: nat,
      phase: Phase)
    requires InvOneShot(changed, served, requests, nextId) && id in requests && !phase.Pending?
    ensures InvOneShot(changed, served, requests[id := requests[id].(phase := phase)], nextId)
  {
    forall q | Spent(q, requests, nextId) ensures Spent(q, requests[id := requests[id].(phase := phase)], nextId) {
    }
    hide Spent;
  }

  lemma ReadersPhase(readers: map<nat, Reader>, requests: map<nat, Request>, id: nat, phase: Phase)
    requires InvReaders(readers, requests) && id in requests
    ensures InvReaders(readers, requests[id := requests[id].(phase := phase)])
  {
  }

  lemma SettleKeeps(s: State, id: nat, body: Option<string>)
    requires Inv(s) && id in s.requests && s.requests[id].phase.Pending?
    ensures Inv(WithPhase(s, id, Settled(body)))
  {
    hide InvTable, InvOneShot, InvReaders;
    TablePhase(s.client.inflight, s.client.generation, s.requests, false, id, body);
    TablePhase(s.client.revalidating, s.client.generation, s.requests, true, id, body);
    OneShotPhase(s.client.changed, s.served, s.requests, s.nextId, id, Settled(body));
    ReadersPhase(s.readers, s.requests, id, Settled(body));
  }

  /** A newly announced result replaces an older one of its key and shares its identity with none. */
  lemma Announce(changed: map<Key, Entry>, served: seq<Served>, requests: map<nat, Request>, nextId: nat, k: Key,
      e: Entry)
    requires InvOneShot(changed, served, requests, nextId) && Spent(e.request, requests, nextId)
    requires forall q :: q in changed ==> changed[q].request != e.request
    requires forall i :: 0 <= i < |served| && served[i].how.OneShot? ==> served[i].request != e.request
    ensures InvOneShot(changed[k := e], served, requests, nextId)
  {
    hide Spent;
  }

  /** A pending request is neither waiting for delivery nor delivered. */
  lemma PendingIsNew(changed: map<Key, Entry>, served: seq<Served>, requests: map<nat, Request>, nextId: nat, id: nat)
    requires InvOneShot(changed, served, requests, nextId) && id in requests && requests[id].phase.Pending?
    ensures forall q :: q in changed ==> changed[q].request != id
    ensures forall i :: 0 <= i < |served| && served[i].how.OneShot? ==> served[i].request != id
  {
  }

  /** Storing the reply of a current request: everything in the store is as recent as before. */
  lemma StoreKeeps(store: map<Key, Entry>, changed: map<Key, Entry>, epoch: nat, k: Key, e: Entry, fits: bool,
      fitsAlone: bool)
    requires InvEpoch(store, changed, epoch) && e.epoch == epoch && e.key == k
    ensures InvEpoch(Written(store, k, e, fits, fitsAlone), changed, epoch)
    ensures InvEpoch(Written(store, k, e, fits, fitsAlone), changed[k := e], epoch)
  {
  }

  /** The cacheable branch, on the state in which the request has settled. */
  lemma CacheKeeps(s: State, id: nat, e: Entry, fits: bool, fitsAlone: bool)
    requires Inv(s) && id in s.requests && s.requests[id].phase.Settled?
    requires s.requests[id].generation == s.client.generation && e.request == id && e.epoch == s.requests[id].epoch
    requires e.key == s.requests[id].key
    requires forall q :: q in s.client.changed ==> s.client.changed[q].request != id
    requires forall i :: 0 <= i < |s.served| && s.served[i].how.OneShot? ==> s.served[i].request != id
    ensures var r := s.requests[id];
            Inv(s.(client := Settle(s.client, r.key, r.generation, r.previous, Some(e), fits, fitsAlone)))
  {
    hide InvTable, InvOneShot, InvReaders, InvServed, InvEpoch, Written, Announced;
    var key := s.requests[id].key;
    StoreKeeps(s.client.store, s.client.changed, s.epoch, key, e, fits, fitsAlone);
    assert Spent(id, s.requests, s.nextId);
    Announce(s.client.changed, s.served, s.requests, s.nextId, key, e);
  }

  lemma RespondKeeps(s: State, id: nat, body: string, cacheable: bool, savedAt: int, fits: bool, fitsAlone: bool,
      t: State)
    requires Inv(s) && Step(s, Respond(id, body, cacheable, savedAt, fits, fitsAlone), t)
    ensures Inv(t)
  {
    hide Inv, Settle;
    var r := s.requests[id];
    SettleKeeps(s, id, Some(body));
    NothingOfPending(s, id);
    var u := WithPhase(s, id, Settled(Some(body)));
    if cacheable && r.generation == s.client.generation {
      CacheKeeps(u, id, Entry(body, savedAt, id, r.epoch, r.key), fits, fitsAlone);
    } else {
      var e := if cacheable then Some(Entry(body, savedAt, id, r.epoch, r.key)) else None;
      NothingSettles(s.client, r, e, fits, fitsAlone);
    }
  }

  lemma NothingOfPending(s: State, id: nat)
    requires Inv(s) && id in s.requests && s.requests[id].phase.Pending?
    ensures forall q :: q in s.client.changed ==> s.client.changed[q].request != id
    ensures forall i :: 0 <= i < |s.served| && s.served[i].how.OneShot? ==> s.served[i].request != id
  {
    hide InvOneShot;
    PendingIsNew(s.client.changed, s.served, s.requests, s.nextId, id);
  }

  lemma NothingSettles(c: Client, r: Request, e: Option<Entry>, fits: bool, fitsAlone: bool)
    requires e.None? || r.generation != c.generation
    ensures Settle(c, r.key, r.generation, r.previous, e, fits, fitsAlone) == c
  {
  }

  lemma FinishTable(table: map<Key, nat>, generation: nat, requests: map<nat, Request>, revalidation: bool, id: nat,
      body: Option<string>)
    requires InvTable(table, generation, requests, revalidation) && id in requests
    ensures var key := requests[id].key;
            var rest := if requests[id].previous.Some? == revalidation then Removed(table, key, id) else table;
            InvTable(rest, generation, requests[id := requests[id].(phase := Done(body))], revalidation)
  {
  }

  lemma FinallyKeeps(s: State, id: nat, t: State)
    requires Inv(s) && Step(s, Finally(id), t)
    ensures Inv(t)
  {
    hide InvTable, InvOneShot, InvReaders, InvServed, Removed;
    var body := s.requests[id].phase.body;
    FinishTable(s.client.inflight, s.client.generation, s.requests, false, id, body);
    FinishTable(s.client.revalidating, s.client.generation, s.requests, true, id, body);
    OneShotPhase(s.client.changed, s.served, s.requests, s.nextId, id, Done(body));
    ReadersPhase(s.readers, s.requests, id, Done(body));
  }

  lemma HandOverKeeps(s: State, reader: nat, t: State)
    requires Inv(s) && Step(s, HandOver(reader), t)
    ensures Inv(t)
  {
    hide InvTable, InvOneShot, InvServed, InvRequests;
    var q := s.readers[reader];
    var r := s.requests[q.request];
    var d := Served(q.request, r.epoch, q.epoch, FromNetwork, q.key, r.key);
    AddServed(s.served, d);
    AddPlainServed(s.client.changed, s.served, s.requests, s.nextId, d);
  }

  lemma InvalidateKeeps(s: State, t: State)
    requires Inv(s) && Step(s, InvalidateAll, t)
    ensures Inv(t)
  {
    hide Spent;
  }

  lemma ReloadKeeps(s: State, t: State)
    requires Inv(s) && Step(s, Reload, t)
    ensures Inv(t)
  {
    hide InvTable;
    NoRequests();
    assert InvOneShot(t.client.changed, t.served, t.requests, t.nextId);
  }

  lemma NoRequests()
    ensures InvTable(map[], 0, map[], false) && InvTable(map[], 0, map[], true)
  {
  }

  lemma StepKeeps(s: State, a: Action, t: State)
    requires Inv(s) && Step(s, a, t)
    ensures Inv(t)
  {
    hide Inv;
    match a
    case Read(reader, key, now) => ReadKeeps(s, reader, key, now, t);
    case Respond(id, body, cacheable, savedAt, fits, fitsAlone) =>
      RespondKeeps(s, id, body, cacheable, savedAt, fits, fitsAlone, t);
    case Fail(id) => SettleKeeps(s, id, None);
    case Finally(id) => FinallyKeeps(s, id, t);
    case HandOver(reader) => HandOverKeeps(s, reader, t);
    case InvalidateAll => InvalidateKeeps(s, t);
    case Reload => ReloadKeeps(s, t);
  }

  lemma InitialHolds()
    ensures Inv(INITIAL)
  {
  }

  lemma {:induction false} RunKeeps(states: seq<State>, actions: seq<Action>, n: nat)
    requires Run(states, actions) && n < |states|
    ensures Inv(states[n])
  {
    hide Inv, Step;
    InitialHolds();
    if n > 0 {
      RunKeeps(states, actions, n - 1);
      StepKeeps(states[n - 1], actions[n - 1], states[n]);
    }
  }

  // ------------------------------------------------------------------ what every run guarantees

  /** After an invalidation nothing asked for before it is held, and no read that begins after it is handed such
      a response; a store hit is at most six hours old. */
  lemma InvalidationIsFinal(states: seq<State>, actions: seq<Action>, n: nat, d: nat)
    requires Run(states, actions) && n < |states| && d < |states[n].served|
    ensures states[n].served[d].issued >= states[n].served[d].began
    ensures states[n].served[d].how.FromStore? ==> states[n].served[d].how.age <= 21600000
    ensures forall k :: k in states[n].client.store ==> states[n].client.store[k].epoch == states[n].epoch
    ensures forall k :: k in states[n].client.changed ==> states[n].client.changed[k].epoch == states[n].epoch
  {
    RunKeeps(states, actions, n);
  }

  /** However it is served, one-shot, from the store or from a request it joined, a reader gets what it asked for. */
  lemma EveryReaderGetsItsOwn(states: seq<State>, actions: seq<Action>, n: nat, d: nat)
    requires Run(states, actions) && n < |states| && d < |states[n].served|
    ensures states[n].served[d].got == states[n].served[d].asked
  {
    RunKeeps(states, actions, n);
  }

  /** A result is set aside for one-shot delivery exactly when a current revalidation of the chats or of the pinned
      list brings something else than it started from. */
  lemma OnlyNewsIsSetAside(s: State, id: nat, body: string, cacheable: bool, savedAt: int, fits: bool,
      fitsAlone: bool, t: State, k: Key)
    requires Step(s, Respond(id, body, cacheable, savedAt, fits, fitsAlone), t)
    ensures var r := s.requests[id];
            var news := && cacheable && r.generation == s.client.generation && r.key == k
                        && r.previous.Some? && r.previous.value != body && k.kind in {Chats, Pinned};
            && (news ==> k in t.client.changed && t.client.changed[k] == Entry(body, savedAt, id, r.epoch, k))
            && (!news ==> (k in t.client.changed <==> k in s.client.changed)
                          && (k in s.client.changed ==> t.client.changed[k] == s.client.changed[k]))
  {
  }

  /** The reply to a current request is stored under the key asked for when it fits; when only an emptied store takes
      it, alone; and every other reply leaves the store as it was. */
  lemma CurrentReplyIsStored(s: State, id: nat, body: string, cacheable: bool, savedAt: int, fits: bool,
      fitsAlone: bool, t: State)
    requires Step(s, Respond(id, body, cacheable, savedAt, fits, fitsAlone), t)
    ensures var r, e := s.requests[id], Entry(body, savedAt, id, s.requests[id].epoch, s.requests[id].key);
            var current := cacheable && r.generation == s.client.generation;
            && (!current ==> t.client.store == s.client.store)
            && (current && fits ==> t.client.store == s.client.store[r.key := e])
            && (current && !fits ==> t.client.store == if fitsAlone then map[r.key := e] else map[])
  {
  }

  /** What a read does: a result set aside goes first and only once; a record at most six hours old is served, and
      asked for again when it is older than 15 seconds and nobody is asking; else the read joins the request for its
      own key, if there is one. */
  lemma ReadDecides(c: Client, k: Key, now: int, id: nat)
    ensures var (answer, d) := BeginRead(c, k, now, id);
            var servable := k in c.store && now - c.store[k].savedAt <= 21600000;
            && (k in c.changed ==> answer == Deliver(c.changed[k]) && k !in d.changed && d.store == c.store)
            && (k !in c.changed && servable ==> answer.Hit? && answer.entry == c.store[k])
            && (k !in c.changed && servable ==>
                 (answer.revalidate <==> now - c.store[k].savedAt > 15000 && k !in c.revalidating))
            && (k !in c.changed && !servable ==> k !in d.store)
            && (k !in c.changed && !servable ==>
                 answer == if k in c.inflight then Join(c.inflight[k]) else Issue)
  {
  }

  /** The result of one revalidation is handed out by one-shot delivery at most once. */
  lemma DeliveredAtMostOnce(states: seq<State>, actions: seq<Action>, n: nat, i: nat, j: nat)
    requires Run(states, actions) && n < |states| && i < j < |states[n].served|
    requires states[n].served[i].how.OneShot? && states[n].served[j].how.OneShot?
    ensures states[n].served[i].request != states[n].served[j].request
  {
    RunKeeps(states, actions, n);
  }

  /** Per key at most one current revalidation is outstanding, and at most one current first load. */
  lemma OneRevalidation(states: seq<State>, actions: seq<Action>, n: nat, a: nat, b: nat, revalidation: bool)
    requires Run(states, actions) && n < |states| && a in states[n].requests && b in states[n].requests
    requires states[n].requests[a].key == states[n].requests[b].key
    requires Outstanding(states[n].requests[a], states[n].client.generation, revalidation)
    requires Outstanding(states[n].requests[b], states[n].client.generation, revalidation)
    ensures a == b
  {
    RunKeeps(states, actions, n);
  }
}
