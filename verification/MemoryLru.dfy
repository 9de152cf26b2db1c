/** The memory map as a least-recently-used cache: what any sequence of touches and removals leaves in it,
    measured against the plain history of those operations. */
module MemoryLru {
  import opened Common
  import opened ReadCache

  /** A touch is a hit or a write of a key; a drop removes expired or invalidated keys. */
  datatype Op = Touch(key: Key, entry: Entry) | Drop(keys: set<Key>)

  function Dropped(m: seq<Slot>, keys: set<Key>): (r: seq<Slot>)
    ensures forall s :: s in r <==> s in m && s.key !in keys
  {
    if m == [] then []
    else
      assert m == [m[0]] + m[1..];
      (if m[0].key in keys then [] else [m[0]]) + Dropped(m[1..], keys)
  }

  /** The memory map after the first n operations. */
  function After(ops: seq<Op>, n: nat): seq<Slot>
    requires n <= |ops|
  {
    if n == 0 then []
    else
      match ops[n - 1]
      case Touch(k, e) => WriteMemory(After(ops, n - 1), k, e)
      case Drop(keys) => Dropped(After(ops, n - 1), keys)
  }

  // ------------------------------------------------------------------ the history

  /** Index of the key's last touch among the first n operations, -1 without one. */
  function LastTouch(ops: seq<Op>, n: nat, k: Key): (i: int)
    requires n <= |ops|
    ensures -1 <= i < n
    ensures i >= 0 ==> ops[i].Touch? && ops[i].key == k
    ensures forall j :: i < j < n ==> !(ops[j].Touch? && ops[j].key == k)
  {
    if n == 0 then -1 else if ops[n - 1].Touch? && ops[n - 1].key == k then n - 1 else LastTouch(ops, n - 1, k)
  }

  /** The distinct keys touched from operation i on. */
  function TouchedSince(ops: seq<Op>, i: nat, n: nat): (keys: set<Key>)
    requires i <= n <= |ops|
    ensures forall j :: i <= j < n && ops[j].Touch? ==> ops[j].key in keys
  {
    if i == n then {} else TouchedSince(ops, i, n - 1) + if ops[n - 1].Touch? then {ops[n - 1].key} else {}
  }

  ghost predicate DroppedSince(ops: seq<Op>, i: nat, n: nat, k: Key)
    requires n <= |ops|
  {
    exists j :: i <= j < n && ops[j].Drop? && k in ops[j].keys
  }

  predicate Holds(m: seq<Slot>, k: Key) {
    Lookup(m, k).Some?
  }

  lemma {:induction false} Position(m: seq<Slot>, k: Key) returns (p: nat)
    requires Holds(m, k)
    ensures p < |m| && m[p].key == k
  {
    p := 0;
    if m[0].key != k {
      p := Position(m[1..], k);
      p := p + 1;
    }
  }

  lemma {:induction false} HeldAt(m: seq<Slot>, p: nat)
    requires p < |m|
    ensures Holds(m, m[p].key)
  {
    if m[0].key != m[p].key { HeldAt(m[1..], p - 1); }
  }

  // ------------------------------------------------------------------ order of last touch

  /** Slots stand in the order of their last touch and hold what that touch wrote. */
  ghost predicate InTouchOrder(ops: seq<Op>, n: nat, m: seq<Slot>)
    requires n <= |ops|
  {
    && (forall i :: 0 <= i < |m| ==>
      LastTouch(ops, n, m[i].key) >= 0 && ops[LastTouch(ops, n, m[i].key)].entry == m[i].entry)
    && (forall i, j :: 0 <= i < j < |m| ==> LastTouch(ops, n, m[i].key) < LastTouch(ops, n, m[j].key))
  }

  ghost predicate Subsequence(a: seq<Slot>, b: seq<Slot>) {
    if b == [] then a == []
    else (a != [] && a[0] == b[0] && Subsequence(a[1..], b[1..])) || Subsequence(a, b[1..])
  }

  lemma {:induction false} SubsequenceKeepsOrder(ops: seq<Op>, n: nat, a: seq<Slot>, b: seq<Slot>)
    requires n <= |ops| && Subsequence(a, b) && InTouchOrder(ops, n, b)
    ensures InTouchOrder(ops, n, a) && (forall s :: s in a ==> s in b) && |a| <= |b|
    decreases |b|
  {
    hide LastTouch;
    if b != [] {
      assert b == [b[0]] + b[1..];
      if a != [] && a[0] == b[0] && Subsequence(a[1..], b[1..]) {
        SubsequenceKeepsOrder(ops, n, a[1..], b[1..]);
        assert a == [a[0]] + a[1..];
        forall j | 0 <= j < |a[1..]| ensures LastTouch(ops, n, a[0].key) < LastTouch(ops, n, a[1..][j].key) {
          assert a[1..][j] in b[1..];
        }
      } else {
        SubsequenceKeepsOrder(ops, n, a, b[1..]);
      }
    }
  }

  lemma {:induction false} WithoutIsSubsequence(m: seq<Slot>, k: Key)
    ensures Subsequence(Without(m, k), m)
  {
    if m != [] {
      WithoutIsSubsequence(m[1..], k);
      assert ([m[0]] + Without(m[1..], k))[1..] == Without(m[1..], k);
      assert [] + Without(m[1..], k) == Without(m[1..], k);
    }
  }

  lemma {:induction false} DroppedIsSubsequence(m: seq<Slot>, keys: set<Key>)
    ensures Subsequence(Dropped(m, keys), m)
  {
    if m != [] {
      DroppedIsSubsequence(m[1..], keys);
      assert ([m[0]] + Dropped(m[1..], keys))[1..] == Dropped(m[1..], keys);
      assert [] + Dropped(m[1..], keys) == Dropped(m[1..], keys);
    }
  }

  lemma OtherTouches(ops: seq<Op>, n: nat, m: seq<Slot>)
    requires 0 < n <= |ops| && InTouchOrder(ops, n - 1, m)
    requires ops[n - 1].Touch? ==> forall i :: 0 <= i < |m| ==> m[i].key != ops[n - 1].key
    ensures InTouchOrder(ops, n, m)
  {
    forall i | 0 <= i < |m| ensures LastTouch(ops, n, m[i].key) == LastTouch(ops, n - 1, m[i].key) {
    }
  }

  lemma NewestInOrder(ops: seq<Op>, n: nat, m: seq<Slot>)
    requires n <= |ops| && InTouchOrder(ops, n, m)
    ensures InTouchOrder(ops, n, Newest(m)) && |Newest(m)| <= MEMORY_LIMIT
  {
    hide LastTouch;
  }

  lemma TouchedLast(ops: seq<Op>, n: nat, rest: seq<Slot>, slot: Slot)
    requires 0 < n <= |ops| && ops[n - 1] == Touch(slot.key, slot.entry) && InTouchOrder(ops, n, rest)
    requires forall i :: 0 <= i < |rest| ==> rest[i].key != slot.key
    ensures InTouchOrder(ops, n, rest + [slot])
  {
    assert LastTouch(ops, n, slot.key) == n - 1;
    forall i | 0 <= i < |rest| ensures LastTouch(ops, n, rest[i].key) < n - 1 {
    }
  }

  /** The map right after delete and set, before the limit is enforced. */
  lemma FullInOrder(ops: seq<Op>, n: nat, m: seq<Slot>)
    requires 0 < n <= |ops| && ops[n - 1].Touch? && InTouchOrder(ops, n - 1, m)
    ensures InTouchOrder(ops, n, Without(m, ops[n - 1].key) + [Slot(ops[n - 1].key, ops[n - 1].entry)])
  {
    hide LastTouch, Subsequence, Without;
    var k, e := ops[n - 1].key, ops[n - 1].entry;
    WithoutIsSubsequence(m, k);
    SubsequenceKeepsOrder(ops, n - 1, Without(m, k), m);
    OtherTouches(ops, n, Without(m, k));
    TouchedLast(ops, n, Without(m, k), Slot(k, e));
  }

  lemma DroppedInOrder(ops: seq<Op>, n: nat, m: seq<Slot>)
    requires 0 < n <= |ops| && ops[n - 1].Drop? && InTouchOrder(ops, n - 1, m)
    ensures InTouchOrder(ops, n, Dropped(m, ops[n - 1].keys)) && |Dropped(m, ops[n - 1].keys)| <= |m|
  {
    hide LastTouch, Subsequence, Dropped;
    DroppedIsSubsequence(m, ops[n - 1].keys);
    SubsequenceKeepsOrder(ops, n - 1, Dropped(m, ops[n - 1].keys), m);
    OtherTouches(ops, n, Dropped(m, ops[n - 1].keys));
  }

  /** In every reachable state the map is in touch order and within its limit. */
  lemma {:induction false} TouchOrder(ops: seq<Op>, n: nat)
    requires n <= |ops|
    ensures InTouchOrder(ops, n, After(ops, n)) && |After(ops, n)| <= MEMORY_LIMIT
  {
    hide InTouchOrder, Newest, Without, Dropped;
    if n == 0 {
      NothingInOrder(ops);
    } else {
      var m := After(ops, n - 1);
      TouchOrder(ops, n - 1);
      match ops[n - 1]
      case Touch(k, e) =>
        FullInOrder(ops, n, m);
        NewestInOrder(ops, n, Without(m, k) + [Slot(k, e)]);
      case Drop(keys) =>
        DroppedInOrder(ops, n, m);
    }
  }

  lemma NothingInOrder(ops: seq<Op>)
    ensures InTouchOrder(ops, 0, [])
  {
  }

  // ------------------------------------------------------------------ eviction

  /** The keys of a map in touch order are distinct. */
  lemma {:induction false} KeyCount(ops: seq<Op>, n: nat, m: seq<Slot>)
    requires n <= |ops| && InTouchOrder(ops, n, m)
    ensures |KeySet(m)| == |m|
  {
    hide LastTouch;
    if m != [] {
      KeyCount(ops, n, m[1..]);
      assert m == [m[0]] + m[1..];
      assert KeySet(m) == {m[0].key} + KeySet(m[1..]);
    }
  }

  function KeySet(m: seq<Slot>): set<Key> {
    set s | s in m :: s.key
  }

  lemma SubsetCount(a: set<Key>, b: set<Key>)
    requires a <= b
    ensures |a| <= |b|
  {
    assert b == a + (b - a);
  }

  lemma SuffixInOrder(ops: seq<Op>, n: nat, full: seq<Slot>, p: nat, from: nat)
    requires n <= |ops| && InTouchOrder(ops, n, full) && p < from <= |full|
    ensures InTouchOrder(ops, n, full[from..])
    ensures forall q :: q in KeySet(full[from..]) ==> LastTouch(ops, n, full[p].key) < LastTouch(ops, n, q)
    ensures LastTouch(ops, n, full[p].key) >= 0
  {
    hide LastTouch;
  }

  lemma LaterIsTouched(ops: seq<Op>, n: nat, i: int, q: Key)
    requires n <= |ops| && -1 <= i < LastTouch(ops, n, q)
    ensures q in TouchedSince(ops, i + 1, n)
  {
    hide LastTouch, TouchedSince;
  }

  lemma YoungerAreTouched(ops: seq<Op>, n: nat, full: seq<Slot>, p: nat, k: Key, from: nat)
    requires n <= |ops| && InTouchOrder(ops, n, full) && p < from <= |full| && full[p].key == k
    ensures LastTouch(ops, n, k) >= 0
    ensures |TouchedSince(ops, LastTouch(ops, n, k) + 1, n)| >= |full| - from
  {
    hide LastTouch, TouchedSince, InTouchOrder, KeySet;
    var i, kept := LastTouch(ops, n, k), full[from..];
    SuffixInOrder(ops, n, full, p, from);
    forall q | q in KeySet(kept) ensures q in TouchedSince(ops, i + 1, n) {
      LaterIsTouched(ops, n, i, q);
    }
    KeyCount(ops, n, kept);
    SubsetCount(KeySet(kept), TouchedSince(ops, i + 1, n));
  }

  /** A key that a touch of another key pushes out has 36 distinct keys touched after it. */
  lemma EvictedByYounger(ops: seq<Op>, n: nat, k: Key)
    requires 0 < n <= |ops| && ops[n - 1].Touch? && ops[n - 1].key != k
    requires Holds(After(ops, n - 1), k) && !Holds(After(ops, n), k)
    ensures LastTouch(ops, n, k) >= 0 && |TouchedSince(ops, LastTouch(ops, n, k) + 1, n)| >= MEMORY_LIMIT
  {
    hide Without, LastTouch, InTouchOrder, Holds, TouchedSince, Newest;
    var m, k', e := After(ops, n - 1), ops[n - 1].key, ops[n - 1].entry;
    var full := Without(m, k') + [Slot(k', e)];
    TouchOrder(ops, n - 1);
    FullInOrder(ops, n, m);
    var p := WithoutKeepsOthers(m, k', k);
    assert full[p].key == k;
    NewestHolds(full, p);
    YoungerAreTouched(ops, n, full, p, k, |full| - MEMORY_LIMIT);
  }

  lemma NewestHolds(full: seq<Slot>, p: nat)
    requires p < |full|
    ensures |Newest(full)| == if |full| > MEMORY_LIMIT then MEMORY_LIMIT else |full|
    ensures p >= |full| - |Newest(full)| ==> Holds(Newest(full), full[p].key)
  {
    var shift := |full| - |Newest(full)|;
    assert Newest(full) == full[shift..];
    if p >= shift { HeldAt(Newest(full), p - shift); }
  }

  lemma {:induction false} WithoutKeepsOthers(m: seq<Slot>, k': Key, k: Key) returns (p: nat)
    requires k != k' && Holds(m, k)
    ensures p < |Without(m, k')| && Without(m, k')[p].key == k
  {
    p := 0;
    if m[0].key != k {
      p := WithoutKeepsOthers(m[1..], k', k);
      p := if m[0].key == k' then p else p + 1;
    }
  }

  lemma {:induction false} DroppedKeepsOthers(m: seq<Slot>, keys: set<Key>, k: Key)
    requires k !in keys
    ensures Holds(Dropped(m, keys), k) == Holds(m, k)
  {
    if m != [] {
      DroppedKeepsOthers(m[1..], keys, k);
      assert [] + Dropped(m[1..], keys) == Dropped(m[1..], keys);
      assert ([m[0]] + Dropped(m[1..], keys))[1..] == Dropped(m[1..], keys);
    }
  }

  lemma TouchedIsHeld(ops: seq<Op>, n: nat)
    requires 0 < n <= |ops| && ops[n - 1].Touch?
    ensures Holds(After(ops, n), ops[n - 1].key)
  {
    var m := After(ops, n);
    assert m[|m| - 1].key == ops[n - 1].key;
    HeldAt(m, |m| - 1);
  }

  lemma TouchedGrows(ops: seq<Op>, i: nat, n: nat)
    requires i < n <= |ops|
    ensures |TouchedSince(ops, i, n - 1)| <= |TouchedSince(ops, i, n)|
  {
    SubsetCount(TouchedSince(ops, i, n - 1), TouchedSince(ops, i, n));
  }

  /** Eviction is only ever by capacity: a touched key that is gone without having been dropped since has
      at least 36 distinct keys touched after it. */
  lemma {:induction false} GoneMeansYounger(ops: seq<Op>, n: nat, k: Key)
    requires n <= |ops| && LastTouch(ops, n, k) >= 0 && !Holds(After(ops, n), k)
    requires !DroppedSince(ops, LastTouch(ops, n, k), n, k)
    ensures |TouchedSince(ops, LastTouch(ops, n, k) + 1, n)| >= MEMORY_LIMIT
  {
    hide Holds, After, TouchedSince;
    var i := LastTouch(ops, n, k);
    if ops[n - 1].Touch? && ops[n - 1].key == k {
      TouchedIsHeld(ops, n);
    } else if Holds(After(ops, n - 1), k) {
      if ops[n - 1].Touch? {
        EvictedByYounger(ops, n, k);
      } else {
        DropStep(ops, n, k);
      }
    } else {
      GoneMeansYounger(ops, n - 1, k);
      TouchedGrows(ops, i + 1, n);
    }
  }

  lemma DropStep(ops: seq<Op>, n: nat, k: Key)
    requires 0 < n <= |ops| && ops[n - 1].Drop? && k !in ops[n - 1].keys
    ensures Holds(After(ops, n), k) == Holds(After(ops, n - 1), k)
  {
    DroppedKeepsOthers(After(ops, n - 1), ops[n - 1].keys, k);
  }

  // ------------------------------------------------------------------ exactness

  /** Touched, and not removed since the last touch. */
  ghost predicate Survives(ops: seq<Op>, n: nat, k: Key)
    requires n <= |ops|
  {
    LastTouch(ops, n, k) >= 0 && !DroppedSince(ops, LastTouch(ops, n, k), n, k)
  }

  /** The distinct keys touched after operation i that have not been removed since. */
  ghost function Younger(ops: seq<Op>, i: nat, n: nat): set<Key>
    requires i < n <= |ops|
  {
    set x | x in TouchedSince(ops, i + 1, n) && Survives(ops, n, x)
  }

  /** At no moment after operation i have there been 36 of them. */
  ghost predicate NeverCrowded(ops: seq<Op>, i: nat, n: nat)
    requires n <= |ops|
  {
    forall m :: i < m <= n ==> |Younger(ops, i, m)| < MEMORY_LIMIT
  }

  lemma LastTouchStep(ops: seq<Op>, n: nat, k: Key)
    requires n <= |ops| && LastTouch(ops, n, k) >= 0
    ensures n > 0
    ensures ops[n - 1].Touch? && ops[n - 1].key == k <==> LastTouch(ops, n, k) == n - 1
    ensures LastTouch(ops, n, k) < n - 1 ==> LastTouch(ops, n - 1, k) == LastTouch(ops, n, k)
  {
  }

  lemma SurvivesStep(ops: seq<Op>, n: nat, k: Key)
    requires 0 < n <= |ops| && !(ops[n - 1].Touch? && ops[n - 1].key == k)
    ensures LastTouch(ops, n, k) == LastTouch(ops, n - 1, k)
    ensures Survives(ops, n, k) <==> Survives(ops, n - 1, k) && (ops[n - 1].Drop? ==> k !in ops[n - 1].keys)
  {
    var i := LastTouch(ops, n, k);
    assert i == LastTouch(ops, n - 1, k);
    hide LastTouch;
  }

  lemma TouchSurvives(ops: seq<Op>, n: nat)
    requires 0 < n <= |ops| && ops[n - 1].Touch?
    ensures LastTouch(ops, n, ops[n - 1].key) == n - 1 && Survives(ops, n, ops[n - 1].key)
  {
  }

  lemma HeldAfterDrop(ops: seq<Op>, n: nat, k: Key)
    requires 0 < n <= |ops| && ops[n - 1].Drop?
    ensures Holds(After(ops, n), k) <==> Holds(After(ops, n - 1), k) && k !in ops[n - 1].keys
  {
    hide Holds, Dropped;
    if k in ops[n - 1].keys {
      if Holds(After(ops, n), k) { var p := Position(After(ops, n), k); }
    } else {
      DropStep(ops, n, k);
    }
  }

  /** What is held has been touched, and has not been removed since. */
  lemma {:induction false} HeldSurvives(ops: seq<Op>, n: nat, k: Key)
    requires n <= |ops| && Holds(After(ops, n), k)
    ensures Survives(ops, n, k)
  {
    hide Survives, Holds;
    if n == 0 {
      NothingHeld(ops, k);
    } else if ops[n - 1].Touch? && ops[n - 1].key == k {
      TouchSurvives(ops, n);
    } else {
      if ops[n - 1].Touch? { HeldBefore(ops, n, k); } else { HeldAfterDrop(ops, n, k); }
      HeldSurvives(ops, n - 1, k);
      SurvivesStep(ops, n, k);
    }
  }

  lemma NothingHeld(ops: seq<Op>, k: Key)
    ensures !Holds(After(ops, 0), k) && !Survives(ops, 0, k)
  {
  }

  /** Everything touched after a held key, and not removed since, is held too. */
  lemma {:induction false} YoungerAreHeld(ops: seq<Op>, n: nat, k: Key, x: Key)
    requires n <= |ops| && Holds(After(ops, n), k) && Survives(ops, n, x)
    requires LastTouch(ops, n, x) > LastTouch(ops, n, k)
    ensures Holds(After(ops, n), x)
  {
    hide Holds, After, Survives, LastTouch;
    if n == 0 {
      NothingHeld(ops, k);
    } else if ops[n - 1].Touch? && ops[n - 1].key == x {
      TouchedIsHeld(ops, n);
    } else {
      if ops[n - 1].Touch? { TouchSurvives(ops, n); }
      SurvivesStep(ops, n, x);
      SurvivesStep(ops, n, k);
      if ops[n - 1].Touch? {
        HeldBefore(ops, n, k);
        YoungerAreHeld(ops, n - 1, k, x);
        StaysWithOlder(ops, n, k, x);
      } else {
        HeldAfterDrop(ops, n, k);
        YoungerAreHeld(ops, n - 1, k, x);
        HeldAfterDrop(ops, n, x);
      }
    }
  }

  lemma HeldBefore(ops: seq<Op>, n: nat, k: Key)
    requires 0 < n <= |ops| && ops[n - 1].Touch? && ops[n - 1].key != k && Holds(After(ops, n), k)
    ensures Holds(After(ops, n - 1), k)
  {
    hide Without, Holds;
    var m, kept := After(ops, n - 1), After(ops, n);
    var i := Position(kept, k);
    assert kept[i] in Without(m, ops[n - 1].key) + [Slot(ops[n - 1].key, ops[n - 1].entry)];
    assert kept[i] in m;
    var j :| 0 <= j < |m| && m[j] == kept[i];
    HeldAt(m, j);
  }

  /** An older key that stays keeps every younger one in the map. */
  lemma StaysWithOlder(ops: seq<Op>, n: nat, k: Key, x: Key)
    requires 0 < n <= |ops| && ops[n - 1].Touch? && ops[n - 1].key != x && ops[n - 1].key != k
    requires Holds(After(ops, n), k) && Holds(After(ops, n - 1), x)
    requires LastTouch(ops, n, x) > LastTouch(ops, n, k)
    ensures Holds(After(ops, n), x)
  {
    hide Without, LastTouch, Holds, InTouchOrder, Newest;
    var m, k', e := After(ops, n - 1), ops[n - 1].key, ops[n - 1].entry;
    var full, kept := Without(m, k') + [Slot(k', e)], After(ops, n);
    TouchOrder(ops, n - 1);
    FullInOrder(ops, n, m);
    var p := WithoutKeepsOthers(m, k', x);
    var q := Position(kept, k);
    assert full[p].key == x;
    YoungerBehind(ops, n, full, p, q);
  }

  /** What is kept are the last ones, in place. */
  lemma NewestAt(full: seq<Slot>, q: nat) returns (shift: nat)
    requires q < |Newest(full)|
    ensures shift + |Newest(full)| == |full| && Newest(full)[q] == full[q + shift]
  {
    shift := |full| - |Newest(full)|;
  }

  /** In touch order the one touched later stands behind. */
  lemma LaterIsBehind(ops: seq<Op>, n: nat, full: seq<Slot>, p: nat, q: nat)
    requires n <= |ops| && InTouchOrder(ops, n, full) && p < |full| && q < |full|
    requires LastTouch(ops, n, full[p].key) > LastTouch(ops, n, full[q].key)
    ensures p > q
  {
    hide LastTouch;
  }

  lemma YoungerBehind(ops: seq<Op>, n: nat, full: seq<Slot>, p: nat, q: nat)
    requires n <= |ops| && InTouchOrder(ops, n, full) && p < |full| && q < |Newest(full)|
    requires LastTouch(ops, n, full[p].key) > LastTouch(ops, n, Newest(full)[q].key)
    ensures Holds(Newest(full), full[p].key)
  {
    hide LastTouch, Holds, InTouchOrder, Newest;
    var shift := NewestAt(full, q);
    LaterIsBehind(ops, n, full, p, q + shift);
    NewestHolds(full, p);
  }

  lemma HeldIsTouched(ops: seq<Op>, n: nat, k: Key)
    requires n <= |ops| && InTouchOrder(ops, n, After(ops, n))
    ensures Holds(After(ops, n), k) ==> LastTouch(ops, n, k) >= 0
  {
    if Holds(After(ops, n), k) { var p := Position(After(ops, n), k); }
  }

  lemma {:induction false} TouchedIsLater(ops: seq<Op>, i: nat, n: nat, x: Key)
    requires i <= n <= |ops| && x in TouchedSince(ops, i, n)
    ensures LastTouch(ops, n, x) >= i
    decreases n
  {
    if i < n && !(ops[n - 1].Touch? && ops[n - 1].key == x) { TouchedIsLater(ops, i, n - 1, x); }
  }

  lemma HeldIsKey(m: seq<Slot>, k: Key)
    requires Holds(m, k)
    ensures k in KeySet(m)
  {
    var p := Position(m, k);
    assert m[p] in m;
  }

  /** Behind a held key there is room for 35 others. */
  lemma HeldHasFewYounger(ops: seq<Op>, n: nat, k: Key)
    requires n <= |ops| && Holds(After(ops, n), k)
    ensures LastTouch(ops, n, k) >= 0 && |Younger(ops, LastTouch(ops, n, k), n)| < MEMORY_LIMIT
  {
    hide After, LastTouch, TouchedSince, Holds, InTouchOrder, KeySet, DroppedSince;
    HeldSurvives(ops, n, k);
    var i, m := LastTouch(ops, n, k), After(ops, n);
    TouchOrder(ops, n);
    var younger := Younger(ops, i, n);
    forall x | x in younger ensures x in KeySet(m) && x != k {
      TouchedIsLater(ops, i + 1, n, x);
      YoungerAreHeld(ops, n, k, x);
      HeldIsKey(m, x);
    }
    HeldIsKey(m, k);
    KeyCount(ops, n, m);
    SubsetCount(younger + {k}, KeySet(m));
  }

  lemma {:induction false} KeyIsHeld(m: seq<Slot>, k: Key)
    requires k in KeySet(m)
    ensures Holds(m, k)
  {
    var s :| s in m && s.key == k;
    var p :| 0 <= p < |m| && m[p] == s;
    HeldAt(m, p);
  }

  lemma NewestIsSuffix(full: seq<Slot>)
    requires |full| >= MEMORY_LIMIT
    ensures Newest(full) == full[|full| - MEMORY_LIMIT..] && |Newest(full)| == MEMORY_LIMIT
  {
  }

  /** What pushes a key out of the map is 36 others that were touched after it and are all still held. */
  lemma PushedOut(ops: seq<Op>, n: nat, k: Key)
    requires 0 < n <= |ops| && ops[n - 1].Touch? && ops[n - 1].key != k
    requires Holds(After(ops, n - 1), k) && !Holds(After(ops, n), k)
    ensures LastTouch(ops, n, k) >= 0 && |Younger(ops, LastTouch(ops, n, k), n)| >= MEMORY_LIMIT
  {
    hide Without, LastTouch, InTouchOrder, Holds, TouchedSince, Newest, Survives, KeySet;
    var m, k', e := After(ops, n - 1), ops[n - 1].key, ops[n - 1].entry;
    var full := Without(m, k') + [Slot(k', e)];
    TouchOrder(ops, n - 1);
    FullInOrder(ops, n, m);
    var p := WithoutKeepsOthers(m, k', k);
    assert full[p].key == k;
    NewestHolds(full, p);
    NewestIsSuffix(full);
    var i, kept, from := LastTouch(ops, n, k), After(ops, n), |full| - MEMORY_LIMIT;
    assert kept == full[from..];
    SuffixInOrder(ops, n, full, p, from);
    forall q | q in KeySet(kept) ensures q in Younger(ops, i, n) {
      LaterIsTouched(ops, n, i, q);
      KeyIsHeld(kept, q);
      HeldSurvives(ops, n, q);
    }
    KeyCount(ops, n, kept);
    SubsetCount(KeySet(kept), Younger(ops, i, n));
  }

  lemma NotCrowdedAtOnce(ops: seq<Op>, n: nat)
    requires 0 < n <= |ops|
    ensures NeverCrowded(ops, n - 1, n)
  {
    assert TouchedSince(ops, n, n) == {};
  }

  lemma CrowdStep(ops: seq<Op>, i: nat, n: nat)
    requires i < n - 1 && 0 < n <= |ops|
    ensures NeverCrowded(ops, i, n) <==> NeverCrowded(ops, i, n - 1) && |Younger(ops, i, n)| < MEMORY_LIMIT
  {
    hide Younger;
  }

  /** The map is exactly least-recently-used, whatever is removed in between: a key is held if and only if it was
      touched, not removed since, and at no moment since were there 36 younger keys that had not been removed. */
  lemma {:induction false} ExactLru(ops: seq<Op>, n: nat, k: Key)
    requires n <= |ops|
    ensures Holds(After(ops, n), k) <==> Survives(ops, n, k) && NeverCrowded(ops, LastTouch(ops, n, k), n)
  {
    hide Holds, After, LastTouch, NeverCrowded, DroppedSince;
    if n == 0 {
      NothingHeld(ops, k);
    } else if ops[n - 1].Touch? && ops[n - 1].key == k {
      TouchedIsHeld(ops, n);
      TouchSurvives(ops, n);
      NotCrowdedAtOnce(ops, n);
    } else {
      SurvivesStep(ops, n, k);
      ExactLru(ops, n - 1, k);
      if LastTouch(ops, n, k) >= 0 { CrowdStep(ops, LastTouch(ops, n, k), n); }
      if Holds(After(ops, n), k) { HeldHasFewYounger(ops, n, k); HeldSurvives(ops, n, k); }
      if ops[n - 1].Drop? {
        HeldAfterDrop(ops, n, k);
      } else {
        if Holds(After(ops, n), k) { HeldBefore(ops, n, k); }
        if Holds(After(ops, n - 1), k) && !Holds(After(ops, n), k) { PushedOut(ops, n, k); }
      }
    }
  }

  lemma {:induction false} TouchedGrowsTo(ops: seq<Op>, i: nat, m: nat, n: nat)
    requires i <= m <= n <= |ops|
    ensures TouchedSince(ops, i, m) <= TouchedSince(ops, i, n)
    decreases n
  {
    if m < n { TouchedGrowsTo(ops, i, m, n - 1); }
  }

  lemma NobodyLeaves(ops: seq<Op>, i: nat, m: nat)
    requires i < m <= |ops| && forall j :: 0 <= j < |ops| ==> ops[j].Touch?
    ensures Younger(ops, i, m) == TouchedSince(ops, i + 1, m)
  {
    hide LastTouch, TouchedSince;
    forall x | x in TouchedSince(ops, i + 1, m) ensures Survives(ops, m, x) {
      TouchedIsLater(ops, i + 1, m, x);
    }
  }

  /** Without removals that is the plain rule: fewer than 36 distinct keys touched since. */
  lemma ExactForTouches(ops: seq<Op>, n: nat, k: Key)
    requires n <= |ops| && forall j :: 0 <= j < |ops| ==> ops[j].Touch?
    ensures Holds(After(ops, n), k) <==>
              LastTouch(ops, n, k) >= 0 && |TouchedSince(ops, LastTouch(ops, n, k) + 1, n)| < MEMORY_LIMIT
  {
    hide Holds, After, LastTouch, TouchedSince, Younger;
    ExactLru(ops, n, k);
    var i := LastTouch(ops, n, k);
    if i >= 0 {
      forall m | i < m <= n ensures |Younger(ops, i, m)| <= |TouchedSince(ops, i + 1, n)| {
        NobodyLeaves(ops, i, m);
        TouchedGrowsTo(ops, i + 1, m, n);
        SubsetCount(TouchedSince(ops, i + 1, m), TouchedSince(ops, i + 1, n));
      }
      NobodyLeaves(ops, i, n);
    }
  }

  // ------------------------------------------------------------------ the cache's own steps are such operations

  lemma {:induction false} UnnamedIsDrop(m: seq<Slot>, chatId: string, keys: set<Key>)
    requires forall s :: s in m ==> (s.key in keys <==> Named(s.key, chatId))
    ensures Unnamed(m, chatId) == Dropped(m, keys)
  {
    if m != [] {
      assert m == [m[0]] + m[1..];
      UnnamedIsDrop(m[1..], chatId, keys);
    }
  }

  lemma {:induction false} WithoutIsDrop(m: seq<Slot>, k: Key)
    ensures Without(m, k) == Dropped(m, {k})
  {
    if m != [] { WithoutIsDrop(m[1..], k); }
  }

  /** A lookup is a touch with the same entry, a drop, or a drop followed by the touch of a promotion. */
  lemma LookupIsOps(c: Client, k: Key, now: int, fits: bool)
    requires |c.memory| <= MEMORY_LIMIT
    ensures var (found, d) := ReadEntry(c, k, now, fits);
            || (found.Some? && Lookup(c.memory, k) == found && d.memory == WriteMemory(c.memory, k, found.value))
            || (found.None? && d.memory == Dropped(c.memory, {k}))
            || (found.Some? && d.memory == WriteMemory(Dropped(c.memory, {k}), k, found.value))
  {
    WithoutLength(c.memory, k);
    WithoutIsDrop(c.memory, k);
  }
}
