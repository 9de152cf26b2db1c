/** The conversation side of the client read cache: a memory map kept in touch order, a session-storage
    tier that can run out of quota, the single-flight table and the generation counter. */
module ReadCache {
  import opened Common

  datatype Part = Chat | Tags | Tasks

  /** One cached resource. The scope is the hexadecimal digest of the user's token. */
  datatype Key = Key(scope: string, chatId: string, part: Part)

  /** A response body, with the resource it was asked for and its place in the origin's history of the chat: how
      many mutations were committed when the request went out, and how many the body shows. */
  datatype Reply = Reply(key: Key, body: string, issued: nat, version: nat)

  datatype Entry = Entry(reply: Reply, savedAt: int)

  /** A session-storage record. */
  datatype Saved = Saved(entry: Entry, expiresAt: int, accessedAt: int)

  datatype Slot = Slot(key: Key, entry: Entry)

  const MEMORY_LIMIT: nat := 36
  const SESSION_LIMIT: nat := 12

  function Ttl(part: Part): int {
    if part == Tasks then 30000 else 600000
  }

  /** `inflight` maps a key to the identity of the promise that serves it. */
  datatype Client = Client(memory: seq<Slot>, session: map<Key, Saved>, inflight: map<Key, nat>, generation: nat)

  const EMPTY := Client([], map[], map[], 0)

  // ------------------------------------------------------------------ keys as text

  function PartText(part: Part): string {
    match part case Chat => "chat" case Tags => "tags" case Tasks => "tasks"
  }

  function KeyText(k: Key): string {
    k.scope + ":" + k.chatId + ":" + PartText(k.part)
  }

  /** The suffix test of invalidateConversation; it may also match chats whose id ends in ":" + chatId. */
  predicate Named(k: Key, chatId: string) {
    || EndsWith(KeyText(k), ":" + chatId + ":chat")
    || EndsWith(KeyText(k), ":" + chatId + ":tags")
    || EndsWith(KeyText(k), ":" + chatId + ":tasks")
  }

  lemma EveryKeyOfTheChatIsNamed(k: Key)
    ensures Named(k, k.chatId)
  {
    var tail := ":" + k.chatId + ":" + PartText(k.part);
    assert KeyText(k) == k.scope + tail;
    SuffixOfSum(k.scope, tail);
    hide EndsWith, KeyText;
    match k.part {
      case Chat => assert tail == ":" + k.chatId + ":chat";
      case Tags => assert tail == ":" + k.chatId + ":tags";
      case Tasks => assert tail == ":" + k.chatId + ":tasks";
    }
  }

  lemma SuffixOfSum(head: string, tail: string)
    ensures EndsWith(head + tail, tail)
  {
  }

  lemma SuffixCancels(a: string, b: string, tail: string)
    ensures EndsWith(a + tail, b + tail) <==> EndsWith(a, b)
  {
    if |b| <= |a| {
      assert (a + tail)[|a| - |b|..] == a[|a| - |b|..] + tail;
      if EndsWith(a + tail, b + tail) {
        assert a[|a| - |b|..] == (a[|a| - |b|..] + tail)[..|b|] == (b + tail)[..|b|] == b;
      }
    }
  }

  lemma LastLetters(s: string, suffix: string)
    requires |suffix| >= 2 && EndsWith(s, suffix)
    ensures s[|s| - 1] == suffix[|suffix| - 1] && s[|s| - 2] == suffix[|suffix| - 2]
  {
    assert s[|s| - 1] == s[|s| - |suffix|..][|suffix| - 1];
    assert s[|s| - 2] == s[|s| - |suffix|..][|suffix| - 2];
  }

  /** The suffix of another part never fits. */
  lemma OwnPartOnly(k: Key, chatId: string, part: Part)
    ensures EndsWith(KeyText(k), ":" + chatId + ":" + PartText(part)) ==> part == k.part
  {
    var s, own, other := KeyText(k), PartText(k.part), ":" + chatId + ":" + PartText(part);
    assert s[|s| - 1] == own[|own| - 1] && s[|s| - 2] == own[|own| - 2];
    if EndsWith(s, other) { LastLetters(s, other); }
  }

  lemma SuffixColon(s: string, rest: string)
    requires |rest| < |s|
    ensures EndsWith(s, ":" + rest) ==> s[|s| - |rest| - 1] == ':'
  {
    if EndsWith(s, ":" + rest) { assert s[|s| - |rest| - 1] == s[|s| - |rest| - 1..][0]; }
  }

  lemma TailOfScoped(scope: string, id: string, chatId: string)
    requires ':' !in scope
    ensures EndsWith(scope + ":" + id, ":" + chatId) <==> id == chatId || EndsWith(id, ":" + chatId)
  {
    var s, n := scope + ":" + id, |scope| + |id| - |chatId|;
    if |chatId| == |id| {
      assert s[n..] == ":" + id && (":" + id)[1..] == id && (":" + chatId)[1..] == chatId;
    } else if |chatId| < |id| {
      assert s[n..] == id[|id| - |chatId| - 1..];
    } else if 0 <= n {
      SuffixColon(s, chatId);
      assert s[n] == scope[n] && scope[n] in scope;
    }
  }

  /** Exactly the keys of the chat are named, and those of chats whose id ends in a colon and that id. */
  lemma NamedIff(k: Key, chatId: string)
    requires ':' !in k.scope
    ensures Named(k, chatId) <==> k.chatId == chatId || EndsWith(k.chatId, ":" + chatId)
  {
    var tail := ":" + PartText(k.part);
    OwnPartOnly(k, chatId, Chat);
    OwnPartOnly(k, chatId, Tags);
    OwnPartOnly(k, chatId, Tasks);
    assert ":" + chatId + ":chat" == ":" + chatId + ":" + PartText(Chat);
    assert ":" + chatId + ":tags" == ":" + chatId + ":" + PartText(Tags);
    assert ":" + chatId + ":tasks" == ":" + chatId + ":" + PartText(Tasks);
    assert KeyText(k) == (k.scope + ":" + k.chatId) + tail;
    assert ":" + chatId + ":" + PartText(k.part) == (":" + chatId) + tail;
    SuffixCancels(k.scope + ":" + k.chatId, ":" + chatId, tail);
    TailOfScoped(k.scope, k.chatId, chatId);
    hide EndsWith, KeyText, PartText;
  }

  function FirstColon(s: string): nat {
    if s == "" || s[0] == ':' then 0 else 1 + FirstColon(s[1..])
  }

  lemma {:induction false} ScopeEndsAtColon(scope: string, rest: string)
    requires ':' !in scope
    ensures FirstColon(scope + ":" + rest) == |scope|
  {
    if scope != "" {
      assert (scope + ":" + rest)[1..] == scope[1..] + ":" + rest;
      ScopeEndsAtColon(scope[1..], rest);
    }
  }

  /** Scopes hold no colon, so two keys never share their text. */
  lemma KeyTextInjective(a: Key, b: Key)
    requires ':' !in a.scope && ':' !in b.scope && KeyText(a) == KeyText(b)
    ensures a == b
  {
    var s := KeyText(a);
    TextParts(a);
    TextParts(b);
  }

  /** Scope, part and chat id are read back from the text by its first colon and its last letters. */
  lemma TextParts(k: Key)
    requires ':' !in k.scope
    ensures var s := KeyText(k);
            var n := FirstColon(s);
            && n + 5 < |s| && n == |k.scope| && s[..n] == k.scope
            && (k.part == Chat <==> s[|s| - 1] == 't')
            && (k.part == Tasks <==> s[|s| - 1] == 's' && s[|s| - 2] == 'k')
            && var m := |s| - |PartText(k.part)| - 1;
            n < m <= |s| && s[n + 1..m] == k.chatId
  {
    var s, text := KeyText(k), PartText(k.part);
    assert s == k.scope + ":" + (k.chatId + ":" + text);
    ScopeEndsAtColon(k.scope, k.chatId + ":" + text);
    assert s[|s| - |text|..] == text;
    assert s[|s| - 1] == text[|text| - 1] && s[|s| - 2] == text[|text| - 2];
    assert s[|k.scope| + 1..|s| - |text| - 1] == k.chatId;
  }

  // ------------------------------------------------------------------ the memory map

  function Without(m: seq<Slot>, k: Key): (r: seq<Slot>)
    ensures forall i :: 0 <= i < |r| ==> r[i] in m && r[i].key != k
  {
    if m == [] then [] else (if m[0].key == k then [] else [m[0]]) + Without(m[1..], k)
  }

  function Lookup(m: seq<Slot>, k: Key): (r: Option<Entry>)
    ensures r.Some? ==> Slot(k, r.value) in m
    ensures r.None? ==> forall s :: s in m ==> s.key != k
  {
    if m == [] then None else if m[0].key == k then Some(m[0].entry) else Lookup(m[1..], k)
  }

  lemma {:induction false} WithoutLength(m: seq<Slot>, k: Key)
    ensures |Without(m, k)| <= |m|
    ensures Lookup(m, k).Some? ==> |Without(m, k)| < |m|
  {
    if m != [] { WithoutLength(m[1..], k); }
  }

  /** Dropping from the front until the limit holds. */
  function Newest(m: seq<Slot>): seq<Slot> {
    if |m| > MEMORY_LIMIT then m[|m| - MEMORY_LIMIT..] else m
  }

  function WriteMemory(m: seq<Slot>, k: Key, e: Entry): seq<Slot> {
    Newest(Without(m, k) + [Slot(k, e)])
  }

  function Unnamed(m: seq<Slot>, chatId: string): (r: seq<Slot>)
    ensures forall i :: 0 <= i < |r| ==> r[i] in m && !Named(r[i].key, chatId)
  {
    if m == [] then [] else (if Named(m[0].key, chatId) then [] else [m[0]]) + Unnamed(m[1..], chatId)
  }

  // ------------------------------------------------------------------ the session tier

  function AccessTime(s: Saved): int {
    if s.accessedAt != 0 then s.accessedAt else s.entry.savedAt
  }

  function Alive(session: map<Key, Saved>, now: int): (r: map<Key, Saved>) {
    map k | k in session && now < session[k].expiresAt :: session[k]
  }

  /** Pruning keeps live records only, all of them if they fit, else twelve that were used last.
      Which of several equally old ones go depends on the storage's own key order. */
  ghost predicate Pruned(before: map<Key, Saved>, after: map<Key, Saved>, now: int) {
    KeepsLastUsed(Alive(before, now), after)
  }

  ghost predicate KeepsLastUsed(live: map<Key, Saved>, after: map<Key, Saved>) {
    && |after| == (if |live| > SESSION_LIMIT then SESSION_LIMIT else |live|)
    && LeavesYounger(live, after)
  }

  /** Writing one record: `fits` and `fitsAlone` say whether setItem succeeds, and succeeds again
      after all conversation records have been removed. */
  ghost predicate Stored(before: map<Key, Saved>, after: map<Key, Saved>, k: Key, s: Saved, now: int, fits: bool,
      fitsAlone: bool)
  {
    if fits then Pruned(before[k := s], after, now)
    else after == if fitsAlone then map[k := s] else map[]
  }

  function SavedFor(k: Key, e: Entry, now: int): Saved {
    Saved(e, e.savedAt + Ttl(k.part), now)
  }

  function ReadSession(session: map<Key, Saved>, k: Key, now: int, fits: bool): (Option<Entry>, map<Key, Saved>) {
    if k !in session || session[k].expiresAt <= now then (None, session - {k})
    else (Some(session[k].entry), if fits then session[k := session[k].(accessedAt := now)] else session)
  }

  // ------------------------------------------------------------------ the steps of a read

  function Fresh(e: Entry, part: Part, now: int): bool {
    now - e.savedAt <= Ttl(part)
  }

  /** readConversationEntry: memory first, then the session tier, which refills memory. */
  function ReadEntry(c: Client, k: Key, now: int, fits: bool): (Option<Entry>, Client) {
    var found := Lookup(c.memory, k);
    if found.Some? && Fresh(found.value, k.part, now) then
      (found, c.(memory := Without(c.memory, k) + [Slot(k, found.value)]))
    else
      var (stored, session) := ReadSession(c.session, k, now, fits);
      var memory := Without(c.memory, k);
      (stored, c.(session := session, memory := if stored.Some? then WriteMemory(memory, k, stored.value) else memory))
  }

  /** What the synchronous part of fetchConversationResponse decides. */
  datatype Answer = Hit(entry: Entry) | Join(request: nat) | Issue(request: nat)

  /** `id` names the promise that a new request would get. */
  function BeginRead(c: Client, k: Key, now: int, fits: bool, id: nat): (Answer, Client) {
    var (found, d) := ReadEntry(c, k, now, fits);
    if found.Some? then (Hit(found.value), d)
    else if k in d.inflight then (Join(d.inflight[k]), d)
    else (Issue(id), d.(inflight := d.inflight[k := id]))
  }

  /** When a read is served at once, and from where: an entry in memory that is at most ten minutes old (thirty
      seconds for tasks), else a session record that has not expired; else it joins the request for its own key;
      else it issues one. A hit is in memory afterwards, and after a miss neither tier holds the key. */
  lemma ReadDecides(c: Client, k: Key, now: int, fits: bool, id: nat)
    requires forall s, t :: s in c.memory && t in c.memory && s.key == t.key ==> s == t
    ensures var ttl := if k.part.Tasks? then 30000 else 600000;
            var answer := BeginRead(c, k, now, fits, id).0;
            && (forall e :: Slot(k, e) in c.memory && now - e.savedAt <= ttl ==> answer == Hit(e))
            && ((forall e :: Slot(k, e) in c.memory ==> now - e.savedAt > ttl) ==>
                 if k in c.session && now < c.session[k].expiresAt then answer == Hit(c.session[k].entry)
                 else answer == if k in c.inflight then Join(c.inflight[k]) else Issue(id))
            && var d := BeginRead(c, k, now, fits, id).1;
            (answer.Hit? ==> Slot(k, answer.entry) in d.memory)
            && (!answer.Hit? ==> k !in d.session && forall e :: Slot(k, e) !in d.memory)
  {
    hide WriteMemory, Without;
    var found := Lookup(c.memory, k);
    if found.Some? { assert Slot(k, found.value) in c.memory; }
    if k in c.session { WrittenIsThere(Without(c.memory, k), k, c.session[k].entry); }
  }

  lemma WrittenIsThere(m: seq<Slot>, k: Key, e: Entry)
    ensures Slot(k, e) in WriteMemory(m, k, e)
  {
    var w := WriteMemory(m, k, e);
    assert w[|w| - 1] == Slot(k, e);
  }

  /** The response handler: a reply of the current generation is written to both tiers. */
  ghost predicate Settles(c: Client, d: Client, k: Key, generation: nat, e: Option<Entry>, now: int, fits: bool,
      fitsAlone: bool)
  {
    if e.None? || generation != c.generation then d == c
    else
      && d == c.(memory := WriteMemory(c.memory, k, e.value), session := d.session)
      && Stored(c.session, d.session, k, SavedFor(k, e.value, now), now, fits, fitsAlone)
  }

  /** The `finally` of a request. */
  function Finish(c: Client, k: Key, id: nat): Client {
    if k in c.inflight && c.inflight[k] == id then c.(inflight := c.inflight - {k}) else c
  }

  /** Issuing a request and finishing it leaves the single-flight table as it was; finishing any other promise of
      the key, one left over from before an invalidation say, leaves the registered one alone. */
  lemma FinishUndoesIssue(c: Client, k: Key, now: int, fits: bool, id: nat, other: nat)
    requires BeginRead(c, k, now, fits, id).0.Issue?
    ensures var d := BeginRead(c, k, now, fits, id).1;
            && k in d.inflight && d.inflight[k] == id
            && Finish(d, k, id).inflight == c.inflight
            && (other != id ==> Finish(d, k, other) == d)
  {
    hide Lookup, ReadSession, WriteMemory, Without;
    var d := BeginRead(c, k, now, fits, id).1;
    assert k !in c.inflight;
    assert d.inflight - {k} == c.inflight;
  }

  /** invalidateConversation; an empty id drops everything. */
  function Invalidate(c: Client, chatId: string): Client {
    if chatId == "" then Client([], map[], map[], c.generation + 1)
    else
      var session := map k | k in c.session && k.chatId != chatId :: c.session[k];
      Client(Unnamed(c.memory, chatId), session, map[], c.generation + 1)
  }

  // ------------------------------------------------------------------ sorting for the pruning loop

  datatype Listed = Listed(key: Key, accessedAt: int)

  predicate Ordered(s: seq<Listed>) {
    forall i, j :: 0 <= i < j < |s| ==> s[i].accessedAt <= s[j].accessedAt
  }

  predicate DistinctKeys(s: seq<Listed>) {
    forall i, j :: 0 <= i < j < |s| ==> s[i].key != s[j].key
  }

  function KeysOf(s: seq<Listed>): set<Key> {
    set x | x in s :: x.key
  }

  /** One step of a stable sort: behind every record that is not younger. */
  function Insert(s: seq<Listed>, x: Listed): (r: seq<Listed>)
    ensures |r| == |s| + 1 && forall y :: y in r <==> y == x || y in s
  {
    if s == [] || x.accessedAt < s[0].accessedAt then [x] + s
    else
      assert s == [s[0]] + s[1..];
      [s[0]] + Insert(s[1..], x)
  }

  lemma {:induction false} InsertKeepsOrder(s: seq<Listed>, x: Listed)
    requires Ordered(s)
    ensures Ordered(Insert(s, x))
  {
    if s != [] && s[0].accessedAt <= x.accessedAt {
      InsertKeepsOrder(s[1..], x);
      var rest := Insert(s[1..], x);
      forall i | 0 <= i < |rest| ensures s[0].accessedAt <= rest[i].accessedAt {
        assert rest[i] in rest;
      }
    }
  }

  lemma {:induction false} InsertKeepsDistinct(s: seq<Listed>, x: Listed)
    requires DistinctKeys(s) && forall y :: y in s ==> y.key != x.key
    ensures DistinctKeys(Insert(s, x))
  {
    if s != [] && s[0].accessedAt <= x.accessedAt {
      InsertKeepsDistinct(s[1..], x);
      var rest := Insert(s[1..], x);
      forall i | 0 <= i < |rest| ensures s[0].key != rest[i].key {
        assert rest[i] in rest;
      }
    }
  }

  lemma {:induction false} DistinctCount(s: seq<Listed>)
    requires DistinctKeys(s)
    ensures |KeysOf(s)| == |s|
  {
    if s != [] {
      DistinctCount(s[1..]);
      assert KeysOf(s) == {s[0].key} + KeysOf(s[1..]);
    }
  }

  method SortByAccess(entries: seq<Listed>) returns (sorted: seq<Listed>)
    requires DistinctKeys(entries)
    ensures Ordered(sorted) && DistinctKeys(sorted) && |sorted| == |entries|
    ensures forall y :: y in sorted <==> y in entries
  {
    sorted := [];
    for i := 0 to |entries|
      invariant Ordered(sorted) && DistinctKeys(sorted) && |sorted| == i
      invariant forall y :: y in sorted <==> y in entries[..i]
    {
      InsertKeepsOrder(sorted, entries[i]);
      InsertKeepsDistinct(sorted, entries[i]);
      sorted := Insert(sorted, entries[i]);
    }
  }

  // ------------------------------------------------------------------ the program

  class ConversationCache {
    var memory: seq<Slot>
    var session: map<Key, Saved>
    var inflight: map<Key, nat>
    var generation: nat

    function View(): Client
      reads this
    {
      Client(memory, session, inflight, generation)
    }

    constructor ()
      ensures View() == EMPTY
    {
      memory, session, inflight, generation := [], map[], map[], 0;
    }

    method WriteConversationMemoryEntry(key: Key, entry: Entry)
      modifies this`memory
      ensures memory == WriteMemory(old(memory), key, entry)
    {
      memory := Without(memory, key) + [Slot(key, entry)];
      ghost var full := memory;
      while |memory| > MEMORY_LIMIT
        invariant |memory| <= |full| && memory == full[|full| - |memory|..]
        invariant |full| > MEMORY_LIMIT ==> |memory| >= MEMORY_LIMIT
        invariant |full| <= MEMORY_LIMIT ==> memory == full
      {
        memory := memory[1..];
      }
    }

    /** The scan of pruneConversationStorage: dead records go, live ones are listed. */
    method ListLiveRecords(now: int) returns (entries: seq<Listed>)
      modifies this`session
      ensures session == Alive(old(session), now) && Lists(entries, session)
    {
      entries := [];
      var todo := session.Keys;
      while todo != {}
        invariant todo <= old(session).Keys
        invariant forall k :: k in session <==> k in old(session) && (k in todo || now < old(session)[k].expiresAt)
        invariant forall k :: k in session ==> session[k] == old(session)[k]
        invariant forall x :: x in entries <==>
            x.key in session && x.key !in todo && x.accessedAt == AccessTime(session[x.key])
        invariant DistinctKeys(entries)
        decreases todo
      {
        var key :| key in todo;
        if session[key].expiresAt <= now {
          session := session - {key};
        } else {
          entries := entries + [Listed(key, AccessTime(session[key]))];
        }
        todo := todo - {key};
      }
    }

    /** Its last loop: the longest unused records go until the limit holds. */
    method DropLongestUnused(sorted: seq<Listed>)
      requires Ordered(sorted) && Lists(sorted, session)
      modifies this`session
      ensures KeepsLastUsed(old(session), session)
    {
      hide Lists;
      ghost var live := session;
      var entries := sorted;
      while |entries| > SESSION_LIMIT
        invariant Ordered(entries) && Lists(entries, session) && LeavesYounger(live, session)
        invariant |entries| >= if |sorted| > SESSION_LIMIT then SESSION_LIMIT else |sorted|
        invariant |entries| <= |sorted|
      {
        DropOldest(entries, session, live);
        session := session - {entries[0].key};
        entries := entries[1..];
      }
      ListedKeys(sorted, live);
      ListedKeys(entries, session);
    }

    method PruneConversationStorage(now: int)
      modifies this`session
      ensures Pruned(old(session), session, now)
    {
      var entries := ListLiveRecords(now);
      entries := SortByAccess(entries);
      DropLongestUnused(entries);
    }

    /** Removes the session records of one chat, or with an empty id all of them. */
    method RemoveConversationStorageEntries(chatId: string)
      modifies this`session
      ensures session == map k | k in old(session) && chatId != "" && k.chatId != chatId :: old(session)[k]
    {
      var todo := session.Keys;
      while todo != {}
        invariant todo <= session.Keys <= old(session).Keys
        invariant forall k :: k in session ==> session[k] == old(session)[k]
        invariant forall k :: k in old(session) ==>
            (k in session <==> k in todo || (chatId != "" && k.chatId != chatId))
        decreases todo
      {
        var key :| key in todo;
        if chatId == "" || key.chatId == chatId { session := session - {key}; }
        todo := todo - {key};
      }
    }

    method WriteConversationStorageEntry(key: Key, entry: Entry, now: int, fits: bool, fitsAlone: bool)
        returns (ok: bool)
      modifies this`session
      ensures Stored(old(session), session, key, SavedFor(key, entry, now), now, fits, fitsAlone)
      ensures ok == (fits || fitsAlone)
    {
      var stored := SavedFor(key, entry, now);
      if fits {
        session := session[key := stored];
        PruneConversationStorage(now);
        return true;
      }
      RemoveConversationStorageEntries("");
      if fitsAlone {
        session := session[key := stored];
        return true;
      }
      return false;
    }

    method ReadConversationStorageEntry(key: Key, now: int, fits: bool) returns (found: Option<Entry>)
      modifies this`session
      ensures (found, session) == ReadSession(old(session), key, now, fits)
    {
      if key !in session || session[key].expiresAt <= now {
        session := session - {key};
        return None;
      }
      var stored := session[key];
      if fits {
        session := session[key := stored.(accessedAt := now)];
      }
      return Some(stored.entry);
    }

    method ReadConversationEntry(key: Key, now: int, fits: bool) returns (found: Option<Entry>)
      modifies this`memory, this`session
      ensures (found, View()) == ReadEntry(old(View()), key, now, fits)
    {
      var entry := Lookup(memory, key);
      if entry.None? || now - entry.value.savedAt > Ttl(key.part) {
        memory := Without(memory, key);
      } else {
        memory := Without(memory, key) + [Slot(key, entry.value)];
        return entry;
      }
      found := ReadConversationStorageEntry(key, now, fits);
      if found.Some? {
        WriteConversationMemoryEntry(key, found.value);
      }
    }

    /** The synchronous part of fetchConversationResponse; `id` is the identity of a new promise. */
    method BeginConversationRead(key: Key, now: int, fits: bool, id: nat) returns (answer: Answer)
      modifies this
      ensures (answer, View()) == BeginRead(old(View()), key, now, fits, id)
    {
      var cached := ReadConversationEntry(key, now, fits);
      if cached.Some? { return Hit(cached.value); }
      if key in inflight { return Join(inflight[key]); }
      inflight := inflight[key := id];
      return Issue(id);
    }

    method HandleConversationResponse(key: Key, issuedIn: nat, entry: Option<Entry>, now: int, fits: bool,
        fitsAlone: bool)
      modifies this
      ensures Settles(old(View()), View(), key, issuedIn, entry, now, fits, fitsAlone)
    {
      if entry.Some? && issuedIn == generation {
        WriteConversationMemoryEntry(key, entry.value);
        var ok := WriteConversationStorageEntry(key, entry.value, now, fits, fitsAlone);
      }
    }

    method FinishConversationRequest(key: Key, id: nat)
      modifies this
      ensures View() == Finish(old(View()), key, id)
      ensures key in inflight ==> inflight[key] != id
      ensures forall k :: k != key || (k in old(inflight) && old(inflight)[k] != id) ==>
                (k in inflight <==> k in old(inflight)) && (k in inflight ==> inflight[k] == old(inflight)[k])
    {
      if key in inflight && inflight[key] == id {
        inflight := inflight - {key};
      }
    }

    /** The loop over the memory keys: entries that carry the chat's name are deleted as they come. */
    method ForgetChat(chatId: string)
      modifies this`memory
      ensures memory == Unnamed(old(memory), chatId)
    {
      hide Named;
      var slots := memory;
      var at := 0;
      for i := 0 to |slots|
        invariant at == |Unnamed(slots[..i], chatId)|
        invariant memory == Unnamed(slots[..i], chatId) + slots[i..]
      {
        UnnamedStep(slots, i, chatId);
        assert memory[at + 1..] == slots[i..][1..] == slots[i + 1..];
        if Named(memory[at].key, chatId) {
          memory := memory[..at] + memory[at + 1..];
        } else {
          at := at + 1;
        }
      }
      assert slots[..|slots|] == slots;
    }

    method InvalidateConversation(chatId: string)
      modifies this
      ensures View() == Invalidate(old(View()), chatId)
    {
      generation := generation + 1;
      inflight := map[];
      if chatId == "" {
        memory := [];
        RemoveConversationStorageEntries("");
        return;
      }
      ForgetChat(chatId);
      RemoveConversationStorageEntries(chatId);
    }
  }

  lemma {:induction false} UnnamedConcat(a: seq<Slot>, b: seq<Slot>, chatId: string)
    ensures Unnamed(a + b, chatId) == Unnamed(a, chatId) + Unnamed(b, chatId)
  {
    hide Named, KeyText;
    if a == [] {
      assert a + b == b;
    } else {
      assert (a + b)[1..] == a[1..] + b;
      UnnamedConcat(a[1..], b, chatId);
    }
  }

  lemma UnnamedStep(slots: seq<Slot>, i: nat, chatId: string)
    requires i < |slots|
    ensures Unnamed(slots[..i + 1], chatId) ==
            Unnamed(slots[..i], chatId) + if Named(slots[i].key, chatId) then [] else [slots[i]]
  {
    assert slots[..i + 1] == slots[..i] + [slots[i]];
    UnnamedConcat(slots[..i], [slots[i]], chatId);
  }

  /** The list names every record once, with its access time. */
  ghost predicate Lists(entries: seq<Listed>, session: map<Key, Saved>) {
    && DistinctKeys(entries)
    && forall x :: x in entries <==> x.key in session && x.accessedAt == AccessTime(session[x.key])
  }

  ghost predicate LeavesYounger(live: map<Key, Saved>, session: map<Key, Saved>) {
    && session.Keys <= live.Keys
    && (forall k :: k in session ==> session[k] == live[k])
    && (forall kept, gone :: kept in session && gone in live && gone !in session ==>
         AccessTime(live[gone]) <= AccessTime(session[kept]))
  }

  lemma FirstIsOldest(entries: seq<Listed>, x: Listed)
    requires Ordered(entries) && DistinctKeys(entries) && entries != []
    ensures x in entries[1..] <==> x in entries && x.key != entries[0].key
    ensures x in entries ==> entries[0].accessedAt <= x.accessedAt
  {
    assert entries == [entries[0]] + entries[1..];
    if x in entries[1..] {
      var i :| 0 <= i < |entries[1..]| && entries[1..][i] == x;
      assert entries[i + 1] == x;
    }
  }

  lemma ListsTail(entries: seq<Listed>, session: map<Key, Saved>)
    requires Ordered(entries) && Lists(entries, session) && entries != []
    ensures Lists(entries[1..], session - {entries[0].key})
  {
    hide Ordered;
    forall x ensures x in entries[1..] <==>
      x.key in session - {entries[0].key} && x.accessedAt == AccessTime(session[x.key])
    {
      FirstIsOldest(entries, x);
    }
  }

  /** The first of the ordered list may go: it is listed no more, and nothing kept is older. */
  lemma DropOldest(entries: seq<Listed>, session: map<Key, Saved>, live: map<Key, Saved>)
    requires Ordered(entries) && Lists(entries, session) && entries != [] && LeavesYounger(live, session)
    ensures Lists(entries[1..], session - {entries[0].key})
    ensures LeavesYounger(live, session - {entries[0].key})
  {
    hide Ordered, AccessTime;
    ListsTail(entries, session);
    assert entries[0] in entries;
    forall kept | kept in session ensures entries[0].accessedAt <= AccessTime(session[kept]) {
      FirstIsOldest(entries, Listed(kept, AccessTime(session[kept])));
    }
  }

  lemma ListedKeys(entries: seq<Listed>, session: map<Key, Saved>)
    requires Lists(entries, session)
    ensures |entries| == |session|
  {
    forall k | k in session ensures k in KeysOf(entries) {
      assert Listed(k, AccessTime(session[k])) in entries;
    }
    assert KeysOf(entries) == session.Keys;
    DistinctCount(entries);
  }
}
