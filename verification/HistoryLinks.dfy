/** The loaded part of a chat history: every message names its parent, and after each load the child lists
    are rebuilt from those names. The locale order of ids is a parameter; it only has to be a strict total order. */
module HistoryLinks {
  import opened Common

  type Id = string

  /** Anything that is not an object is Junk; a missing or empty parent id is None, a missing timestamp 0. */
  datatype Message = Junk | Message(parent: Option<Id>, timestamp: real, children: seq<Id>)

  type Messages = map<Id, Message>

  type Order = (Id, Id) -> bool

  ghost predicate TotalOrder(before: Order) {
    && (forall a :: !before(a, a))
    && (forall a, b :: before(a, b) || before(b, a) || a == b)
    && (forall a, b, c :: before(a, b) && before(b, c) ==> before(a, c))
  }

  /** Messages are ordered by time, equal times by id. */
  predicate Precedes(before: Order, m: Messages, a: Id, b: Id)
    requires a in m && b in m && m[a].Message? && m[b].Message?
  {
    m[a].timestamp < m[b].timestamp || (m[a].timestamp == m[b].timestamp && before(a, b))
  }

  predicate AllLoaded(m: Messages) {
    forall id :: id in m ==> m[id].Message?
  }

  ghost predicate Ascending(before: Order, m: Messages, s: seq<Id>)
    requires AllLoaded(m)
  {
    && (forall i :: 0 <= i < |s| ==> s[i] in m)
    && (forall i, j :: 0 <= i < j < |s| ==> Precedes(before, m, s[i], s[j]))
  }

  function Loaded(m: Messages): set<Id> {
    set id | id in m && m[id].Message?
  }

  function ChildrenOf(m: Messages, p: Id): set<Id> {
    set id | id in m && m[id].Message? && m[id].parent == Some(p)
  }

  /** `after` has the loaded messages of `m`, and each child list is exactly the loaded messages that name the
      message as parent, each once, in ascending order. */
  ghost predicate IsRebuilt(before: Order, m: Messages, after: Messages) {
    && AllLoaded(after) && after.Keys == Loaded(m)
    && forall p :: p in after ==>
         && after[p].parent == m[p].parent && after[p].timestamp == m[p].timestamp
         && Ascending(before, after, after[p].children)
         && forall c :: c in after[p].children <==> c in ChildrenOf(m, p)
  }

  /** A range load: valid messages of the payload replace or join the loaded ones. */
  function Merge(m: Messages, payload: Messages): Messages {
    m + map id | id in payload && payload[id].Message? :: payload[id]
  }

  // ------------------------------------------------------------------ uniqueness

  lemma SameEmptiness(s: seq<Id>, t: seq<Id>)
    requires forall c :: c in s <==> c in t
    ensures s == [] <==> t == []
  {
    if s != [] { assert s[0] in t; }
    if t != [] { assert t[0] in s; }
  }

  lemma FirstIsLeast(before: Order, m: Messages, s: seq<Id>, c: Id)
    requires AllLoaded(m) && Ascending(before, m, s) && c in s
    ensures c == s[0] || Precedes(before, m, s[0], c)
  {
    var i :| 0 <= i < |s| && s[i] == c;
  }

  /** Precedes is asymmetric, so a list in ascending order has one possible first member. */
  lemma SameFirst(before: Order, m: Messages, s: seq<Id>, t: seq<Id>)
    requires TotalOrder(before) && AllLoaded(m) && Ascending(before, m, s) && Ascending(before, m, t)
    requires s != [] && t != [] && forall c :: c in s <==> c in t
    ensures s[0] == t[0]
  {
    FirstIsLeast(before, m, s, t[0]);
    FirstIsLeast(before, m, t, s[0]);
  }

  lemma TailMembers(before: Order, m: Messages, s: seq<Id>, c: Id)
    requires TotalOrder(before) && AllLoaded(m) && Ascending(before, m, s) && s != []
    ensures c in s[1..] <==> c in s && c != s[0]
  {
    assert s == [s[0]] + s[1..];
    if c in s[1..] {
      var i :| 0 <= i < |s[1..]| && s[1..][i] == c;
      assert Precedes(before, m, s[0], s[i + 1]);
    }
  }

  /** Ascending lists with the same members are the same list. */
  lemma {:induction false} AscendingUnique(before: Order, m: Messages, s: seq<Id>, t: seq<Id>)
    requires TotalOrder(before) && AllLoaded(m) && Ascending(before, m, s) && Ascending(before, m, t)
    requires forall c :: c in s <==> c in t
    ensures s == t
  {
    SameEmptiness(s, t);
    if s != [] {
      SameFirst(before, m, s, t);
      forall c ensures c in s[1..] <==> c in t[1..] {
        TailMembers(before, m, s, c);
        TailMembers(before, m, t, c);
      }
      AscendingUnique(before, m, s[1..], t[1..]);
      assert s == [s[0]] + s[1..] && t == [t[0]] + t[1..];
    }
  }

  lemma RebuiltUnique(before: Order, m: Messages, a: Messages, b: Messages)
    requires TotalOrder(before) && IsRebuilt(before, m, a) && IsRebuilt(before, m, b)
    ensures a == b
  {
    forall p | p in a ensures a[p] == b[p] {
      assert Ascending(before, a, b[p].children);
      AscendingUnique(before, a, a[p].children, b[p].children);
    }
  }

  // ------------------------------------------------------------------ incremental and one-shot builds

  lemma MergeKeepsOld(m: Messages, payload: Messages, id: Id)
    ensures id in Merge(m, payload) && Merge(m, payload)[id].Message? <==>
              (id in m && m[id].Message?) || (id in payload && payload[id].Message?)
    ensures id in payload && payload[id].Message? ==> Merge(m, payload)[id] == payload[id]
    ensures id in m && !(id in payload && payload[id].Message?) ==> Merge(m, payload)[id] == m[id]
  {
  }

  /** Rebuilding changes neither who is loaded after the next load nor who names whom. */
  lemma MergeOfRebuilt(before: Order, m: Messages, rebuilt: Messages, payload: Messages, id: Id)
    requires IsRebuilt(before, m, rebuilt)
    ensures (id in Merge(rebuilt, payload) && Merge(rebuilt, payload)[id].Message?) <==>
              (id in Merge(m, payload) && Merge(m, payload)[id].Message?)
    ensures id in Merge(rebuilt, payload) && Merge(rebuilt, payload)[id].Message? ==>
              && Merge(rebuilt, payload)[id].parent == Merge(m, payload)[id].parent
              && Merge(rebuilt, payload)[id].timestamp == Merge(m, payload)[id].timestamp
  {
    hide Merge, Ascending, ChildrenOf;
    MergeKeepsOld(rebuilt, payload, id);
    MergeKeepsOld(m, payload, id);
    assert id in rebuilt <==> id in Loaded(m);
  }

  /** Only the parents and times of the loaded messages matter to a rebuild. */
  lemma RebuildOfAlike(before: Order, x: Messages, y: Messages, after: Messages)
    requires IsRebuilt(before, x, after)
    requires forall id :: (id in x && x[id].Message?) <==> (id in y && y[id].Message?)
    requires forall id :: id in x && x[id].Message? ==>
        x[id].parent == y[id].parent && x[id].timestamp == y[id].timestamp
    ensures IsRebuilt(before, y, after)
  {
    hide Ascending;
    assert Loaded(x) == Loaded(y);
    forall p ensures ChildrenOf(x, p) == ChildrenOf(y, p) {
    }
    forall p | p in after ensures after[p].parent == y[p].parent && after[p].timestamp == y[p].timestamp {
      assert p in Loaded(x);
    }
  }

  /** Rebuilding after a load does not depend on having rebuilt before it. */
  lemma RebuildAbsorbs(before: Order, m: Messages, rebuilt: Messages, payload: Messages, after: Messages)
    requires IsRebuilt(before, m, rebuilt) && IsRebuilt(before, Merge(rebuilt, payload), after)
    ensures IsRebuilt(before, Merge(m, payload), after)
  {
    hide IsRebuilt, Merge;
    forall id ensures
      && ((id in Merge(rebuilt, payload) && Merge(rebuilt, payload)[id].Message?) <==>
         (id in Merge(m, payload) && Merge(m, payload)[id].Message?))
      && (id in Merge(rebuilt, payload) && Merge(rebuilt, payload)[id].Message? ==>
         && Merge(rebuilt, payload)[id].parent == Merge(m, payload)[id].parent
         && Merge(rebuilt, payload)[id].timestamp == Merge(m, payload)[id].timestamp)
    {
      MergeOfRebuilt(before, m, rebuilt, payload, id);
    }
    RebuildOfAlike(before, Merge(rebuilt, payload), Merge(m, payload), after);
  }

  function MergeAll(m: Messages, payloads: seq<Messages>): Messages {
    if payloads == [] then m else Merge(MergeAll(m, payloads[..|payloads| - 1]), payloads[|payloads| - 1])
  }

  /** states[i] is the history after i range loads, each followed by its own rebuild. */
  ghost predicate LoadRun(before: Order, states: seq<Messages>, payloads: seq<Messages>) {
    && |states| == |payloads| + 1
    && forall i :: 0 <= i < |payloads| ==> IsRebuilt(before, Merge(states[i], payloads[i]), states[i + 1])
  }

  lemma {:induction false} LoadsRebuild(before: Order, states: seq<Messages>, payloads: seq<Messages>)
    requires LoadRun(before, states, payloads) && payloads != []
    ensures IsRebuilt(before, MergeAll(states[0], payloads), states[|payloads|])
    decreases |payloads|
  {
    var n := |payloads| - 1;
    if n == 0 {
      assert payloads[..n] == [];
    } else {
      LoadsRebuild(before, states[..n + 1], payloads[..n]);
      RebuildAbsorbs(before, MergeAll(states[0], payloads[..n]), states[n], payloads[n], states[n + 1]);
    }
  }

  /** After any sequence of range loads the history is what one rebuild of everything merged would give. */
  lemma LoadsEqualOneShot(before: Order, states: seq<Messages>, payloads: seq<Messages>, oneShot: Messages)
    requires TotalOrder(before) && LoadRun(before, states, payloads) && payloads != []
    requires IsRebuilt(before, MergeAll(states[0], payloads), oneShot)
    ensures states[|payloads|] == oneShot
  {
    LoadsRebuild(before, states, payloads);
    RebuiltUnique(before, MergeAll(states[0], payloads), states[|payloads|], oneShot);
  }

  // ------------------------------------------------------------------ the program

  /** The children of p among a list of ids, in list order. */
  function Named(m: Messages, ordered: seq<Id>, p: Id): (r: seq<Id>)
    requires AllLoaded(m) && forall id :: id in ordered ==> id in m
    ensures forall c :: c in r <==> c in ordered && m[c].parent == Some(p)
  {
    if ordered == [] then []
    else
      var init, last := ordered[..|ordered| - 1], ordered[|ordered| - 1];
      assert ordered == init + [last];
      Named(m, init, p) + if m[last].parent == Some(p) then [last] else []
  }

  lemma {:induction false} NamedAscends(before: Order, m: Messages, ordered: seq<Id>, p: Id)
    requires AllLoaded(m) && Ascending(before, m, ordered)
    ensures Ascending(before, m, Named(m, ordered, p))
  {
    if ordered != [] {
      var init, last := ordered[..|ordered| - 1], ordered[|ordered| - 1];
      NamedAscends(before, m, init, p);
      var r := Named(m, init, p);
      forall i | 0 <= i < |r| ensures Precedes(before, m, r[i], last) {
        assert r[i] in init;
      }
    }
  }

  function InsertId(before: Order, m: Messages, s: seq<Id>, x: Id): (r: seq<Id>)
    requires AllLoaded(m) && x in m && forall id :: id in s ==> id in m
    ensures forall y :: y in r <==> y == x || y in s
  {
    if s == [] || Precedes(before, m, x, s[0]) then [x] + s
    else
      assert s == [s[0]] + s[1..];
      [s[0]] + InsertId(before, m, s[1..], x)
  }

  lemma {:induction false} InsertAscends(before: Order, m: Messages, s: seq<Id>, x: Id)
    requires TotalOrder(before) && AllLoaded(m) && x in m && Ascending(before, m, s) && x !in s
    ensures Ascending(before, m, InsertId(before, m, s, x))
  {
    if s != [] {
      if Precedes(before, m, x, s[0]) {
        forall i | 0 <= i < |s| ensures Precedes(before, m, x, s[i]) {
        }
      } else {
        InsertAscends(before, m, s[1..], x);
        var rest := InsertId(before, m, s[1..], x);
        forall i | 0 <= i < |rest| ensures Precedes(before, m, s[0], rest[i]) {
          assert rest[i] in rest;
        }
      }
    }
  }

  lemma AscendsAlike(before: Order, m: Messages, after: Messages, s: seq<Id>)
    requires AllLoaded(m) && AllLoaded(after) && m.Keys == after.Keys
    requires forall id :: id in m ==> m[id].timestamp == after[id].timestamp
    ensures Ascending(before, m, s) == Ascending(before, after, s)
  {
    assert forall id :: id in m <==> id in after;
    if forall i :: 0 <= i < |s| ==> s[i] in m {
      forall i, j | 0 <= i < j < |s|
        ensures Precedes(before, m, s[i], s[j]) == Precedes(before, after, s[i], s[j])
      {
      }
    }
  }

  /** In an ascending list nothing repeats, so the next member is not among those before it. */
  lemma NextIsNew(before: Order, m: Messages, s: seq<Id>, i: nat)
    requires TotalOrder(before) && AllLoaded(m) && Ascending(before, m, s) && i < |s|
    ensures s[i] !in s[..i]
  {
    forall j | 0 <= j < i ensures s[j] != s[i] {
      assert Precedes(before, m, s[j], s[i]);
    }
  }

  lemma NamedStep(m: Messages, ordered: seq<Id>, i: nat, p: Id)
    requires AllLoaded(m) && (forall id :: id in ordered ==> id in m) && i < |ordered|
    ensures Named(m, ordered[..i + 1], p) ==
            Named(m, ordered[..i], p) + if m[ordered[i]].parent == Some(p) then [ordered[i]] else []
  {
    assert ordered[..i + 1][..i] == ordered[..i];
  }

  /** The messages `base` with the child lists read off an ordered list of ids. */
  ghost predicate Linked(m: Messages, base: Messages, ordered: seq<Id>)
    requires AllLoaded(base) && forall id :: id in ordered ==> id in base
  {
    m.Keys == base.Keys && forall p :: p in m ==> m[p] == base[p].(children := Named(base, ordered, p))
  }

  /** Linking one more id pushes it to its parent's list and to no other. */
  lemma LinkStep(m: Messages, base: Messages, ordered: seq<Id>, i: nat, next: Messages)
    requires AllLoaded(base) && (forall id :: id in ordered ==> id in base) && i < |ordered|
    requires Linked(m, base, ordered[..i])
    requires match base[ordered[i]].parent
             case Some(p) => next == if p in m then m[p := m[p].(children := m[p].children + [ordered[i]])] else m
             case None => next == m
    ensures Linked(next, base, ordered[..i + 1])
  {
    hide Named;
    assert next.Keys == m.Keys;
    forall p | p in next ensures next[p] == base[p].(children := Named(base, ordered[..i + 1], p)) {
      NamedStep(base, ordered, i, p);
    }
  }

  /** The loaded messages with every child list emptied. */
  ghost predicate IsEmptied(m: Messages, base: Messages) {
    base.Keys == Loaded(m) && forall id :: id in base ==> base[id] == m[id].(children := [])
  }

  lemma EmptyLinks(m: Messages, base: Messages, ordered: seq<Id>)
    requires IsEmptied(m, base) && AllLoaded(base) && forall id :: id in ordered ==> id in base
    ensures Linked(base, base, ordered[..0])
  {
  }

  lemma LinkedIsRebuilt(before: Order, m: Messages, base: Messages, ordered: seq<Id>, after: Messages)
    requires IsEmptied(m, base) && AllLoaded(base) && Ascending(before, base, ordered)
    requires forall id :: id in ordered <==> id in base
    requires Linked(after, base, ordered)
    ensures IsRebuilt(before, m, after)
  {
    hide Named, Ascending;
    forall p | p in after ensures Ascending(before, after, after[p].children) {
      NamedAscends(before, base, ordered, p);
      AscendsAlike(before, base, after, after[p].children);
    }
    forall p, c | p in after ensures c in after[p].children <==> c in ChildrenOf(m, p) {
      assert c in base <==> c in Loaded(m);
    }
  }

  class History {
    var messages: Messages

    constructor (loaded: Messages)
      ensures messages == loaded
    {
      messages := loaded;
    }

    /** The first loop: what is not a message is dropped, and every child list is emptied. */
    method DropInvalid()
      modifies this
      ensures AllLoaded(messages) && IsEmptied(old(messages), messages)
    {
      var entries := messages.Keys;
      ghost var was := messages;
      while entries != {}
        invariant entries <= messages.Keys <= was.Keys
        invariant forall id :: id in messages ==>
          if id in entries then messages[id] == was[id]
          else was[id].Message? && messages[id] == was[id].(children := [])
        invariant forall id :: id in Loaded(was) ==> id in messages
      {
        var id :| id in entries;
        entries := entries - {id};
        match messages[id] {
          case Junk => messages := messages - {id};
          case Message(_, _, _) => messages := messages[id := messages[id].(children := [])];
        }
      }
    }

    /** The ids by time, then by id, whatever order the entries are listed in. */
    method SortedIds(before: Order) returns (ordered: seq<Id>)
      requires TotalOrder(before) && AllLoaded(messages)
      ensures Ascending(before, messages, ordered) && forall id :: id in ordered <==> id in messages
    {
      ordered := [];
      var entries := messages.Keys;
      while entries != {}
        invariant entries <= messages.Keys && Ascending(before, messages, ordered)
        invariant forall id :: id in ordered <==> id in messages && id !in entries
      {
        var id :| id in entries;
        entries := entries - {id};
        InsertAscends(before, messages, ordered, id);
        ordered := InsertId(before, messages, ordered, id);
      }
    }

    /** The program: the second loop pushes each id to its loaded parent unless it is listed there already. */
    method RebuildLoadedHistoryLinks(before: Order)
      requires TotalOrder(before)
      modifies this
      ensures IsRebuilt(before, old(messages), messages)
    {
      hide Named, IsRebuilt, Ascending, TotalOrder, IsEmptied;
      DropInvalid();
      var ordered := SortedIds(before);
      ghost var base := messages;
      assert forall id :: id in ordered <==> id in base;
      EmptyLinks(old(messages), base, ordered);
      for i := 0 to |ordered|
        invariant Linked(messages, base, ordered[..i])
      {
        var id := ordered[i];
        ghost var linked := messages;
        NextIsNew(before, base, ordered, i);
        match messages[id].parent {
          case None =>
          case Some(p) =>
            if p in messages {
              assert id !in Named(base, ordered[..i], p);
              if id !in messages[p].children {
                messages := messages[p := messages[p].(children := messages[p].children + [id])];
              }
            }
        }
        LinkStep(linked, base, ordered, i, messages);
      }
      assert ordered[..|ordered|] == ordered;
      LinkedIsRebuilt(before, old(messages), base, ordered, messages);
    }

    /** A range arrives: its messages join the loaded ones and the links are rebuilt. */
    method LoadRange(before: Order, payload: Messages)
      requires TotalOrder(before)
      modifies this
      ensures IsRebuilt(before, Merge(old(messages), payload), messages)
    {
      hide IsRebuilt, TotalOrder;
      var entries := payload.Keys;
      ghost var was := messages;
      while entries != {}
        invariant entries <= payload.Keys
        invariant messages == was + map id | id in payload && id !in entries && payload[id].Message? :: payload[id]
      {
        var id :| id in entries;
        entries := entries - {id};
        if payload[id].Message? {
          messages := messages[id := payload[id]];
        }
      }
      assert messages == Merge(was, payload);
      RebuildLoadedHistoryLinks(before);
    }
  }
}
