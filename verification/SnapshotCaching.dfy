/** The per-venue cache of units and combinations: one entry per venue, keyed by config version, the most recently used
    venues kept. */
module SnapshotCaching {
  import opened Sorting
  import opened Domain

  datatype Entry<S> = Entry(venue: Id, version: int, snapshot: S)

  // ----- Recency -----

  function Without(order: seq<Id>, v: Id): seq<Id> {
    if order == [] then [] else
    (if order[0] == v then [] else [order[0]]) + Without(order[1..], v)
  }

  /** The venues ever used, each once, the one used longest ago first. */
  function Recency(uses: seq<Id>): seq<Id> {
    if uses == [] then [] else
    var v := uses[|uses| - 1];
    Without(Recency(uses[..|uses| - 1]), v) + [v]
  }

  function LastOf<T>(s: seq<T>, n: nat): seq<T> {
    if |s| <= n then s else s[|s| - n..]
  }

  lemma {:induction false} WithoutRemoves(s: seq<Id>, v: Id)
    requires NoRepeats(s)
    ensures NoRepeats(Without(s, v))
    ensures forall x :: x in Without(s, v) <==> x in s && x != v
    ensures |Without(s, v)| == if v in s then |s| - 1 else |s|
    ensures v !in s ==> Without(s, v) == s
  {
    if s != [] {
      var rest := Without(s[1..], v);
      WithoutRemoves(s[1..], v);
      assert forall x :: x in s <==> x == s[0] || x in s[1..];
      if s[0] != v {
        assert Without(s, v) == [s[0]] + rest;
        forall j | 0 <= j < |rest| ensures rest[j] != s[0] {
          assert rest[j] in rest;
        }
      } else {
        assert Without(s, v) == rest;
      }
    }
  }

  lemma {:induction false} WithoutConcat(a: seq<Id>, b: seq<Id>, v: Id)
    ensures Without(a + b, v) == Without(a, v) + Without(b, v)
  {
    if a == [] {
      assert a + b == b;
    } else {
      var head := if a[0] == v then [] else [a[0]];
      assert Without(a + b, v) == head + Without(a[1..] + b, v) by { assert (a + b)[1..] == a[1..] + b; }
      WithoutConcat(a[1..], b, v);
      assert Without(a, v) == head + Without(a[1..], v);
      hide Without;
    }
  }

  lemma {:induction false} RecencyHasNoRepeats(uses: seq<Id>)
    ensures NoRepeats(Recency(uses))
    ensures forall v :: v in Recency(uses) <==> v in uses
    decreases |uses|
  {
    if uses != [] {
      var before := uses[..|uses| - 1];
      RecencyHasNoRepeats(before);
      WithoutRemoves(Recency(before), uses[|uses| - 1]);
      assert uses == before + [uses[|uses| - 1]];
    }
  }

  /** When a venue was last used, counting from one; zero if never. */
  function LastUse(uses: seq<Id>, v: Id): nat {
    if uses == [] then 0
    else if uses[|uses| - 1] == v then |uses|
    else LastUse(uses[..|uses| - 1], v)
  }

  lemma {:induction false} LastUseIsPast(uses: seq<Id>, v: Id)
    ensures LastUse(uses, v) <= |uses|
    decreases |uses|
  {
    if uses != [] { LastUseIsPast(uses[..|uses| - 1], v); }
  }

  /** The recency order is the order of last use. */
  lemma {:induction false} RecencyFollowsLastUse(uses: seq<Id>)
    ensures forall i, j :: 0 <= i < j < |Recency(uses)| ==>
              LastUse(uses, Recency(uses)[i]) < LastUse(uses, Recency(uses)[j])
    decreases |uses|
  {
    if uses != [] {
      var before, v := uses[..|uses| - 1], uses[|uses| - 1];
      RecencyFollowsLastUse(before);
      RecencyHasNoRepeats(before);
      WithoutRemoves(Recency(before), v);
      WithoutKeepsOrder(Recency(before), v, x => LastUse(before, x));
      var kept := Without(Recency(before), v);
      forall i | 0 <= i < |kept| ensures kept[i] != v && LastUse(uses, kept[i]) <= |before| {
        assert kept[i] in kept;
        LastUseIsPast(before, kept[i]);
      }
    }
  }

  lemma {:induction false} WithoutKeepsOrder(s: seq<Id>, v: Id, rank: Id -> nat)
    requires forall i, j :: 0 <= i < j < |s| ==> rank(s[i]) < rank(s[j])
    ensures forall i, j :: 0 <= i < j < |Without(s, v)| ==> rank(Without(s, v)[i]) < rank(Without(s, v)[j])
    ensures forall x :: x in Without(s, v) ==> x in s
  {
    if s != [] {
      WithoutKeepsOrder(s[1..], v, rank);
      var rest := Without(s[1..], v);
      forall j | 0 <= j < |rest| ensures rank(s[0]) < rank(rest[j]) {
        assert rest[j] in s[1..];
      }
    }
  }

  /** Keeping only the last `max` venues loses nothing the next use needs. */
  lemma TruncatedRecency(order: seq<Id>, v: Id, max: nat)
    requires NoRepeats(order)
    ensures LastOf(Without(LastOf(order, max), v) + [v], max) == LastOf(Without(order, v) + [v], max)
    ensures v in LastOf(order, max) ==> |Without(LastOf(order, max), v) + [v]| <= max
  {
    var kept := LastOf(order, max);
    assert NoRepeats(kept);
    WithoutRemoves(kept, v);
    if |order| > max {
      var gone := order[..|order| - max];
      assert order == gone + kept;
      WithoutConcat(gone, kept, v);
      hide Without, NoRepeats;
      assert Without(order, v) + [v] == Without(gone, v) + (Without(kept, v) + [v]);
      LastOfSuffix(Without(gone, v), Without(kept, v) + [v], max);
    }
  }

  lemma LastOfSuffix<T>(a: seq<T>, b: seq<T>, max: nat)
    requires |b| >= max || a == []
    ensures LastOf(a + b, max) == LastOf(b, max)
  {
    assert a == [] ==> a + b == b;
  }

  lemma NextUse(uses: seq<Id>, v: Id, max: nat)
    ensures LastOf(Recency(uses + [v]), max) == LastOf(Without(LastOf(Recency(uses), max), v) + [v], max)
    ensures v in LastOf(Recency(uses), max) ==> |Without(LastOf(Recency(uses), max), v) + [v]| <= max
    ensures NoRepeats(LastOf(Recency(uses), max))
  {
    RecencyHasNoRepeats(uses);
    TruncatedRecency(Recency(uses), v, max);
    assert (uses + [v])[..|uses|] == uses;
  }

  // ----- The map, in insertion order -----

  function Venues<S>(entries: seq<Entry<S>>): (r: seq<Id>)
    ensures |r| == |entries| && forall i :: 0 <= i < |r| ==> r[i] == entries[i].venue
  {
    seq(|entries|, i requires 0 <= i < |entries| => entries[i].venue)
  }

  function Lookup<S>(entries: seq<Entry<S>>, v: Id): (r: Option<Entry<S>>)
    ensures r.None? <==> v !in Venues(entries)
    ensures r.Some? ==> r.value in entries && r.value.venue == v
  {
    if entries == [] then None
    else if entries[0].venue == v then Some(entries[0])
    else assert forall i :: 0 < i < |entries| ==> entries[i] == entries[1..][i - 1]; Lookup(entries[1..], v)
  }

  function Delete<S>(entries: seq<Entry<S>>, v: Id): seq<Entry<S>> {
    if entries == [] then [] else
    (if entries[0].venue == v then [] else [entries[0]]) + Delete(entries[1..], v)
  }

  lemma {:induction false} DeleteRemoves<S>(entries: seq<Entry<S>>, v: Id)
    ensures Venues(Delete(entries, v)) == Without(Venues(entries), v)
    ensures forall e :: e in Delete(entries, v) ==> e in entries && e.venue != v
  {
    if entries != [] {
      var head := if entries[0].venue == v then [] else [entries[0]];
      var rest := Delete(entries[1..], v);
      DeleteRemoves(entries[1..], v);
      assert Delete(entries, v) == head + rest;
      VenuesConcat(head, rest);
      assert Venues(entries)[1..] == Venues(entries[1..]);
      assert Without(Venues(entries), v) == Venues(head) + Without(Venues(entries[1..]), v);
      hide Without, Delete, Venues;
    }
  }

  lemma VenuesConcat<S>(a: seq<Entry<S>>, b: seq<Entry<S>>)
    ensures Venues(a + b) == Venues(a) + Venues(b)
  {
  }

  /** The entries are the last stored ones of the `max` most recently used venues, in recency order. */
  ghost predicate Holds<S>(entries: seq<Entry<S>>, uses: seq<Id>, stored: map<Id, Entry<S>>, max: nat) {
    && Venues(entries) == LastOf(Recency(uses), max)
    && forall e :: e in entries ==> e.venue in stored && stored[e.venue] == e
  }

  lemma HeldIsStored<S>(entries: seq<Entry<S>>, v: Id, uses: seq<Id>, stored: map<Id, Entry<S>>, max: nat)
    requires Holds(entries, uses, stored, max)
    ensures Lookup(entries, v).Some? <==> v in LastOf(Recency(uses), max)
    ensures Lookup(entries, v).Some? ==> v in stored && stored[v] == Lookup(entries, v).value
    ensures NoRepeats(Venues(entries))
  {
    NextUse(uses, v, max);
    hide Recency, LastOf;
  }

  lemma HitKeeps<S>(entries: seq<Entry<S>>, v: Id, uses: seq<Id>, stored: map<Id, Entry<S>>, max: nat)
    requires Holds(entries, uses, stored, max) && Lookup(entries, v).Some?
    ensures Holds(Delete(entries, v) + [Lookup(entries, v).value], uses + [v], stored, max)
  {
    NextUse(uses, v, max);
    DeleteRemoves(entries, v);
    WithoutRemoves(Venues(entries), v);
    hide Without, Recency, NoRepeats, Lookup, Delete, LastOf;
    var e := Lookup(entries, v).value;
    VenuesConcat(Delete(entries, v), [e]);
    assert Venues([e]) == [v];
    LastOfShort(Without(LastOf(Recency(uses), max), v) + [v], max);
  }

  lemma LastOfShort<T>(s: seq<T>, max: nat)
    requires |s| <= max
    ensures LastOf(s, max) == s
  {
  }

  lemma HitKeepsVenues<S>(entries: seq<Entry<S>>, v: Id)
    requires NoRepeats(Venues(entries)) && Lookup(entries, v).Some?
    ensures Elements(Venues(Delete(entries, v) + [Lookup(entries, v).value])) == Elements(Venues(entries))
  {
    WithoutRemoves(Venues(entries), v);
    DeleteRemoves(entries, v);
    hide Without, NoRepeats, Lookup, Delete;
    var moved := Delete(entries, v) + [Lookup(entries, v).value];
    assert Venues(moved) == Without(Venues(entries), v) + [v];
    forall x ensures x in Venues(moved) <==> x in Venues(entries) {
      assert x in Venues(moved) <==> x in Without(Venues(entries), v) || x == v;
    }
  }

  lemma StoreKeeps<S>(entries: seq<Entry<S>>, e: Entry<S>, uses: seq<Id>, stored: map<Id, Entry<S>>, max: nat)
    requires Holds(entries, uses, stored, max)
    ensures Holds(LastOf(Delete(entries, e.venue) + [e], max), uses + [e.venue], stored[e.venue := e], max)
  {
    NextUse(uses, e.venue, max);
    DeleteRemoves(entries, e.venue);
    hide Without, Recency, NoRepeats, Delete;
    var all := Delete(entries, e.venue) + [e];
    assert Venues(all) == Without(Venues(entries), e.venue) + [e.venue];
    assert Venues(LastOf(all, max)) == LastOf(Venues(all), max);
  }

  class SnapshotCache<S> {
    const max: nat
    var entries: seq<Entry<S>>
    /** Every hit and every store, by venue, in order. */
    ghost var uses: seq<Id>
    /** The last entry stored for each venue. */
    ghost var stored: map<Id, Entry<S>>

    ghost predicate Valid()
      reads this
    {
      Holds(entries, uses, stored, max)
    }

    /** Every snapshot ever stored is what the venue held at that version. */
    ghost predicate Truthful(loaded: (Id, int) -> S)
      reads this
    {
      forall v :: v in stored ==> stored[v].venue == v && stored[v].snapshot == loaded(v, stored[v].version)
    }

    constructor (max: nat)
      ensures Valid() && this.max == max && uses == [] && stored == map[]
    {
      this.max := max;
      entries, uses, stored := [], [], map[];
    }

    /** A hit is the venue's last stored entry when its version is the one asked for, and counts as a use. */
    method Get(v: Id, version: int, ghost loaded: (Id, int) -> S) returns (r: Option<S>)
      requires Valid() && Truthful(loaded)
      modifies `entries, `uses
      ensures Valid() && Truthful(loaded)
      ensures r.Some? <==> v in LastOf(Recency(old(uses)), max) && v in stored && stored[v].version == version
      ensures r.Some? ==> r.value == loaded(v, version)
      ensures uses == if r.Some? then old(uses) + [v] else old(uses)
      ensures Elements(Venues(entries)) == old(Elements(Venues(entries)))
    {
      hide Holds, Without, NoRepeats, Recency, Delete, Lookup, LastOf;
      HeldIsStored(entries, v, uses, stored, max);
      var hit := Lookup(entries, v);
      if hit.None? || hit.value.version != version { return None; }
      HitKeeps(entries, v, uses, stored, max);
      HitKeepsVenues(entries, v);
      entries := Delete(entries, v);
      entries := entries + [hit.value];
      uses := uses + [v];
      r := Some(hit.value.snapshot);
    }

    /** Stores what the reader loaded, whatever version is there already, and evicts the venues used longest ago. */
    method Set(v: Id, version: int, snapshot: S, ghost loaded: (Id, int) -> S)
      requires Valid() && Truthful(loaded) && snapshot == loaded(v, version)
      modifies `entries, `uses, `stored
      ensures Valid() && Truthful(loaded)
      ensures uses == old(uses) + [v]
      ensures stored == old(stored)[v := Entry(v, version, snapshot)]
      ensures |entries| <= max
    {
      StoreKeeps(entries, Entry(v, version, snapshot), uses, stored, max);
      entries := Delete(entries, v);
      entries := entries + [Entry(v, version, snapshot)];
      uses := uses + [v];
      stored := stored[v := Entry(v, version, snapshot)];
      Trim();
    }

    method Trim()
      modifies `entries
      ensures entries == LastOf(old(entries), max)
    {
      ghost var all := entries;
      while |entries| > max
        invariant |entries| <= |all| && entries == all[|all| - |entries|..]
        invariant |all| <= max ==> entries == all
        invariant |all| > max ==> |entries| >= max
      {
        entries := entries[1..];
      }
    }
  }
}
