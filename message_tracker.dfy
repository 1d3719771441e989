/**
 * The bounded message tracker: bot message id -> id of the user whose
 * command produced it. Python dicts keep insertion order, and eviction
 * relies on that order, so the table is an ordered key list plus a map.
 * The class `Tracker` is the in-place object; `Table` and the functions
 * over it are the specification its methods are proved against.
 */
module MessageTracker {
  import opened Wrappers

  const DefaultMaxSize: int := 10000

  predicate NoDup(s: seq<int>) {
    forall i, j :: 0 <= i < j < |s| ==> s[i] != s[j]
  }

  /** Ordered dictionary: `order` lists the keys of `users` oldest first. */
  datatype Table = Table(order: seq<int>, users: map<int, int>)

  predicate WellFormed(t: Table) {
    NoDup(t.order)
    && (forall k :: k in t.users ==> k in t.order)
    && (forall k :: k in t.order ==> k in t.users)
  }

  /** `s` with every occurrence of `x` removed (deleting a dict key). */
  function Without(s: seq<int>, x: int): (r: seq<int>)
    ensures x !in r
    ensures forall y :: y in r <==> y in s && y != x
    ensures |r| <= |s|
  {
    if s == [] then [] else (if s[0] == x then [] else [s[0]]) + Without(s[1..], x)
  }

  lemma {:induction false} WithoutAbsent(s: seq<int>, x: int)
    requires x !in s
    ensures Without(s, x) == s
  {
    if s != [] {
      WithoutAbsent(s[1..], x);
    }
  }

  /** In a duplicate-free sequence the two sides of any cut share no element. */
  lemma Disjoint(s: seq<int>, n: int)
    requires NoDup(s) && 0 <= n <= |s|
    ensures forall k :: k in s[n..] ==> k !in s[..n]
  {
    forall k | k in s[n..] ensures k !in s[..n] {
      var j :| 0 <= j < |s| - n && s[n..][j] == k;
      assert s[n + j] == k;
      forall i | 0 <= i < n ensures s[..n][i] != k {
        assert s[..n][i] == s[i];
      }
    }
  }

  lemma HeadNotInTail(s: seq<int>)
    requires s != [] && NoDup(s)
    ensures s[0] !in s[1..]
  {
    Disjoint(s, 1);
    assert s[..1] == [s[0]];
  }

  lemma WithoutHead(s: seq<int>)
    requires s != [] && NoDup(s)
    ensures Without(s, s[0]) == s[1..]
  {
    HeadNotInTail(s);
    WithoutAbsent(s[1..], s[0]);
  }

  lemma {:induction false} WithoutNoDup(s: seq<int>, x: int)
    requires NoDup(s)
    ensures NoDup(Without(s, x))
  {
    if s != [] {
      WithoutNoDup(s[1..], x);
      var rest := Without(s[1..], x);
      if s[0] != x {
        HeadNotInTail(s);
        assert s[0] !in rest;
      }
    }
  }

  /** `max(1, max_size // 10)`: floor division, as Python's `//`. */
  function CleanupCount(maxSize: int): (c: int)
    ensures c >= 1
    ensures maxSize >= 1 ==> c <= maxSize
    ensures maxSize >= 10 ==> c * 10 <= maxSize < (c + 1) * 10
  {
    if maxSize / 10 > 1 then maxSize / 10 else 1
  }

  function Min(a: int, b: int): int { if a < b then a else b }

  /** `_cleanup_old_messages`: deletes the oldest `CleanupCount` keys. */
  function Cleanup(t: Table, maxSize: int): (r: Table)
    ensures |r.order| == |t.order| - Min(CleanupCount(maxSize), |t.order|)
    ensures r.order == t.order[|t.order| - |r.order|..]
    ensures forall k :: k in r.users ==> k in t.users && r.users[k] == t.users[k]
  {
    var n := Min(CleanupCount(maxSize), |t.order|);
    var gone := t.order[..n];
    Table(t.order[n..], map k | k in t.users && k !in gone :: t.users[k])
  }

  /** `track_message`: cleanup first when full, then assign. */
  function Track(t: Table, maxSize: int, id: int, user: int): (r: Table)
    ensures id in r.users && r.users[id] == user
    ensures id !in t.users ==> r.order != [] && r.order[|r.order| - 1] == id
    ensures |t.order| < maxSize ==> forall k :: k in t.users && k != id ==> k in r.users && r.users[k] == t.users[k]
  {
    var kept := if |t.order| >= maxSize then Cleanup(t, maxSize) else t;
    Table(if id in kept.users then kept.order else kept.order + [id], kept.users[id := user])
  }

  /** `get_trigger_user`: `dict.get`, so None for an untracked id. */
  function Lookup(t: Table, id: int): (r: Option<int>)
    ensures r.Some? <==> id in t.users
    ensures r.Some? ==> r.value == t.users[id]
  {
    if id in t.users then Some(t.users[id]) else None
  }

  /** `remove_message`. */
  function Remove(t: Table, id: int): (r: Table)
    ensures id !in r.users && r.users.Keys == t.users.Keys - {id}
  {
    if id in t.users then Table(Without(t.order, id), t.users - {id}) else t
  }

  // ---------------------------------------------------------------------
  // Properties of the specification

  lemma CleanupWellFormed(t: Table, maxSize: int)
    requires WellFormed(t)
    ensures WellFormed(Cleanup(t, maxSize))
  {
    var n := Min(CleanupCount(maxSize), |t.order|);
    var r := Cleanup(t, maxSize);
    Disjoint(t.order, n);
    forall k | k in t.order ensures k in t.order[..n] || k in t.order[n..] {
      var i :| 0 <= i < |t.order| && t.order[i] == k;
      if i < n {
        assert t.order[..n][i] == k;
      } else {
        assert t.order[n..][i - n] == k;
      }
    }
    forall k | k in r.order ensures k in t.order {
      var j :| 0 <= j < |r.order| && r.order[j] == k;
      assert t.order[n + j] == k;
    }
  }

  /** Cleanup removes exactly the oldest `max(1, max_size // 10)` ids and keeps the rest. */
  lemma CleanupRemovesOldest(t: Table, maxSize: int)
    requires WellFormed(t)
    ensures var n := Min(CleanupCount(maxSize), |t.order|);
      Cleanup(t, maxSize).order == t.order[n..] &&
      (forall k :: k in t.order[..n] ==> Lookup(Cleanup(t, maxSize), k) == None) &&
      (forall k :: k in t.order[n..] ==> Lookup(Cleanup(t, maxSize), k) == Lookup(t, k))
  {
    Disjoint(t.order, Min(CleanupCount(maxSize), |t.order|));
  }

  lemma TrackWellFormed(t: Table, maxSize: int, id: int, user: int)
    requires WellFormed(t)
    ensures WellFormed(Track(t, maxSize, id, user))
  {
    CleanupWellFormed(t, maxSize);
  }

  /** After `track_message(m, u)`, `get_trigger_user(m) == u`. */
  lemma TrackThenLookup(t: Table, maxSize: int, id: int, user: int)
    ensures Lookup(Track(t, maxSize, id, user), id) == Some(user)
  {
  }

  /** A non-full table keeps every other entry when an id is tracked. */
  lemma TrackKeepsOthers(t: Table, maxSize: int, id: int, user: int, k: int)
    requires |t.order| < maxSize && k != id
    ensures Lookup(Track(t, maxSize, id, user), k) == Lookup(t, k)
  {
  }

  /** A full table is cleaned up before the new id is inserted. */
  lemma TrackWhenFullCleansFirst(t: Table, maxSize: int, id: int, user: int)
    requires WellFormed(t) && |t.order| >= maxSize
    ensures var c := Cleanup(t, maxSize);
      Track(t, maxSize, id, user).order ==
        (if id in c.users then c.order else c.order + [id])
  {
  }

  lemma {:induction false} CardOfDistinct(s: seq<int>)
    requires NoDup(s)
    ensures |set x | x in s| == |s|
  {
    if s != [] {
      var t := s[..|s| - 1];
      var last := s[|s| - 1];
      assert NoDup(t);
      CardOfDistinct(t);
      assert (set x | x in s) == (set x | x in t) + {last} by {
        assert s == t + [last];
      }
      assert last !in (set x | x in t) by {
        Disjoint(s, |s| - 1);
        assert s[|s| - 1..] == [last];
      }
    }
  }

  /** The number of tracked ids is the length of the key order. */
  lemma SizeIsOrderLength(t: Table)
    requires WellFormed(t)
    ensures |t.users| == |t.order|
  {
    var ks := set x | x in t.order;
    forall x ensures x in t.users.Keys <==> x in ks {
    }
    assert t.users.Keys == ks;
    CardOfDistinct(t.order);
  }

  /** With `max_size >= 1`, tracking never takes the table above `max_size` entries. */
  lemma TrackStaysWithinCapacity(t: Table, maxSize: int, id: int, user: int)
    requires WellFormed(t) && maxSize >= 1 && |t.users| <= maxSize
    ensures |Track(t, maxSize, id, user).users| <= maxSize
  {
    SizeIsOrderLength(t);
    TrackWellFormed(t, maxSize, id, user);
    SizeIsOrderLength(Track(t, maxSize, id, user));
  }

  /**
   * Re-tracking an id that is already present overwrites its user but keeps
   * its place in the eviction order (while the table is not full).
   */
  lemma RetrackKeepsPosition(t: Table, maxSize: int, id: int, user: int)
    requires id in t.users && |t.order| < maxSize
    ensures Track(t, maxSize, id, user).order == t.order
    ensures Lookup(Track(t, maxSize, id, user), id) == Some(user)
  {
  }

  /**
   * When the table is full and the re-tracked id is among the oldest, the
   * cleanup deletes it first, so it comes back as the newest key.
   */
  lemma RetrackEvictedMovesToEnd(t: Table, maxSize: int, id: int, user: int)
    requires WellFormed(t) && |t.order| >= maxSize
    requires id in t.order[..Min(CleanupCount(maxSize), |t.order|)]
    ensures var n := Min(CleanupCount(maxSize), |t.order|);
      Track(t, maxSize, id, user).order == t.order[n..] + [id]
  {
    CleanupRemovesOldest(t, maxSize);
  }

  /** `remove_message` makes the id absent and leaves every other entry as it was. */
  lemma RemoveSpec(t: Table, id: int, k: int)
    requires WellFormed(t)
    ensures Lookup(Remove(t, id), id) == None
    ensures k != id ==> Lookup(Remove(t, id), k) == Lookup(t, k)
    ensures WellFormed(Remove(t, id))
  {
    WithoutNoDup(t.order, id);
  }

  /** Removing an untracked id is a no-op. */
  lemma RemoveAbsentNoop(t: Table, id: int)
    requires id !in t.users
    ensures Remove(t, id) == t
  {
  }

  // ---------------------------------------------------------------------
  // The object

  class Tracker {
    var order: seq<int>
    var users: map<int, int>
    const maxSize: int

    ghost predicate Valid()
      reads this
    {
      WellFormed(Table(order, users))
    }

    function Model(): Table
      reads this
    {
      Table(order, users)
    }

    constructor (maxSize: int)
      ensures Valid() && Model() == Table([], map[]) && this.maxSize == maxSize
    {
      order := [];
      users := map[];
      this.maxSize := maxSize;
    }

    method TrackMessage(id: int, user: int)
      requires Valid()
      modifies this
      ensures Valid()
      ensures Model() == Track(old(Model()), maxSize, id, user)
    {
      if |order| >= maxSize {
        CleanupOldMessages();
      }
      users := users[id := user];
      if id !in order {
        order := order + [id];
      }
    }

    function GetTriggerUser(id: int): (r: Option<int>)
      reads this
      requires Valid()
      ensures r == Lookup(Model(), id)
      ensures r.Some? <==> id in order
    {
      if id in users then Some(users[id]) else None
    }

    method RemoveMessage(id: int)
      requires Valid()
      modifies this
      ensures Valid()
      ensures Model() == Remove(old(Model()), id)
    {
      if id in users {
        users := users - {id};
        order := Without(order, id);
        WithoutNoDup(old(order), id);
      }
    }

    /** Deletes the oldest keys one at a time, as the source's loop does. */
    method CleanupOldMessages()
      requires Valid()
      modifies this
      ensures Valid()
      ensures Model() == Cleanup(old(Model()), maxSize)
    {
      var count := CleanupCount(maxSize);
      var oldIds := order[..Min(count, |order|)];
      ghost var start := order;
      ghost var startUsers := users;
      var i := 0;
      while i < |oldIds|
        invariant 0 <= i <= |oldIds|
        invariant order == start[i..]
        invariant users == map k | k in startUsers && k !in oldIds[..i] :: startUsers[k]
        invariant Valid()
      {
        var id := oldIds[i];
        assert id == order[0];
        WithoutHead(order);
        WithoutNoDup(order, id);
        users := users - {id};
        order := Without(order, id);
        assert oldIds[..i + 1] == oldIds[..i] + [id];
        i := i + 1;
      }
      assert oldIds[..i] == oldIds;
    }

    method Clear()
      modifies this
      ensures Valid() && Model() == Table([], map[])
    {
      order := [];
      users := map[];
    }

    /** `get_stats` without the floating-point usage percentage. */
    method GetStats() returns (totalTracked: int, max: int)
      requires Valid()
      ensures totalTracked == |order| && max == maxSize
    {
      SizeIsOrderLength(Model());
      totalTracked := |users|;
      max := maxSize;
    }
  }

  /** The module-level `_global_tracker`, created on first use. */
  class Registry {
    var instance: Tracker?

    constructor ()
      ensures instance == null
    {
      instance := null;
    }

    method GetMessageTracker() returns (t: Tracker)
      modifies this
      ensures old(instance) != null ==> t == old(instance) && instance == t
      ensures old(instance) == null ==>
        (fresh(t) && instance == t && t.maxSize == DefaultMaxSize
         && t.Valid() && t.Model() == Table([], map[]))
    {
      if instance == null {
        t := new Tracker(DefaultMaxSize);
        instance := t;
      } else {
        t := instance;
      }
    }
  }
}
