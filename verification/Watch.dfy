/** Fan-out of service-list snapshots to followers through coalescing slots. */
module Watch {
  import opened Basics
  import opened Service

  const MAX_WATCH_FOLLOWERS: nat := 8
  const GENERATIONS: nat := 0x1_0000_0000_0000_0000

  datatype ServiceStatus = ServiceStatus(
    name: string,
    state: ServiceState,
    pid: Option<int>,
    restarts: u32,
    livenessFailures: u32,
    enabled: bool,
    labels: map<string, string>)

  type Listing = seq<ServiceStatus>

  predicate HasKeys(labels: map<string, string>, keys: seq<string>) {
    forall k :: k in keys ==> k in labels
  }

  function Matching(services: Listing, keys: seq<string>): Listing
    decreases |services|
  {
    if services == [] then []
    else
      var k := |services| - 1;
      Matching(services[..k], keys) + if HasKeys(services[k].labels, keys) then [services[k]] else []
  }

  /** The rows a follower asked for; no keys means all of them. */
  function FilterSnapshot(services: Listing, keys: seq<string>): Listing {
    if keys == [] then services else Matching(services, keys)
  }

  predicate SameRow(a: ServiceStatus, b: ServiceStatus) {
    a.name == b.name && a.state == b.state && a.labels == b.labels
  }

  /** Equality that ignores pids and counters. */
  predicate ViewsEq(a: Listing, b: Listing) {
    |a| == |b| && forall i :: 0 <= i < |a| ==> SameRow(a[i], b[i])
  }

  /** Filtering respects view equality, so a follower is never woken by a pid change alone. */
  lemma {:induction false} FilterRespectsViews(a: Listing, b: Listing, keys: seq<string>)
    requires ViewsEq(a, b)
    ensures ViewsEq(FilterSnapshot(a, keys), FilterSnapshot(b, keys))
    decreases |a|
  {
    if a != [] && keys != [] {
      var k := |a| - 1;
      FilterRespectsViews(a[..k], b[..k], keys);
      assert SameRow(a[k], b[k]);
    }
  }

  /** The rows of a listing, as far as a follower is told of changes in them. */
  function Rows(listing: Listing): (r: seq<(string, ServiceState, map<string, string>)>)
    ensures |r| == |listing|
    ensures forall i :: 0 <= i < |r| ==> r[i] == (listing[i].name, listing[i].state, listing[i].labels)
  {
    seq(|listing|, i requires 0 <= i < |listing| => (listing[i].name, listing[i].state, listing[i].labels))
  }

  /** Listings are view-equal exactly when they have the same names, states and labels in the same order. */
  lemma ViewsEqIff(a: Listing, b: Listing)
    ensures ViewsEq(a, b) <==> Rows(a) == Rows(b)
  {
    if ViewsEq(a, b) {
      assert forall i :: 0 <= i < |a| ==> SameRow(a[i], b[i]);
    } else if |a| == |b| {
      var i :| 0 <= i < |a| && !SameRow(a[i], b[i]);
      assert Rows(a)[i] != Rows(b)[i];
    }
  }

  /** A filter treats each row alone and keeps the order ... */
  lemma {:induction false} FilterAppend(a: Listing, b: Listing, keys: seq<string>)
    ensures FilterSnapshot(a + b, keys) == FilterSnapshot(a, keys) + FilterSnapshot(b, keys)
    decreases |b|
  {
    if b == [] {
      assert a + b == a;
    } else if keys != [] {
      var k := |b| - 1;
      FilterAppend(a, b[..k], keys);
      assert (a + b)[..|a + b| - 1] == a + b[..k];
    }
  }

  /** ... and keeps a row exactly when it carries a label for every key. */
  lemma FilterOne(row: ServiceStatus, keys: seq<string>)
    ensures FilterSnapshot([row], keys) == if forall k :: k in keys ==> k in row.labels.Keys then [row] else []
  {
    assert [row][..0] == [];
    assert Matching([], keys) == [];
  }

  // ----- what a follower should see -----

  function View(published: seq<Listing>, keys: seq<string>): Listing
    requires published != []
  {
    FilterSnapshot(published[|published| - 1], keys)
  }

  /** Publications that changed the follower's view; the first one always does. */
  function ViewChanges(published: seq<Listing>, keys: seq<string>): nat
    decreases |published|
  {
    if published == [] then 0
    else
      var before := published[..|published| - 1];
      ViewChanges(before, keys)
      + if before != [] && ViewsEq(View(before, keys), View(published, keys)) then 0 else 1
  }

  /** What the slot holds: the view at the last change. */
  function Slot(published: seq<Listing>, keys: seq<string>): (r: Option<Listing>)
    ensures r.None? <==> published == []
    ensures r.Some? ==> ViewsEq(r.value, View(published, keys))
    decreases |published|
  {
    if published == [] then None
    else
      var before := published[..|published| - 1];
      if before != [] && ViewsEq(View(before, keys), View(published, keys)) then Slot(before, keys)
      else Some(View(published, keys))
  }

  lemma {:induction false} ChangesGrow(published: seq<Listing>, keys: seq<string>, k: nat)
    requires k <= |published|
    ensures ViewChanges(published[..k], keys) <= ViewChanges(published, keys)
    decreases |published| - k
  {
    if k < |published| {
      assert published[..k + 1][..k] == published[..k];
      ChangesGrow(published, keys, k + 1);
    } else {
      assert published[..k] == published;
    }
  }

  /** No view change since the first `k` publications: the latest view is still the one then. */
  lemma {:induction false} NoChangeNoNews(published: seq<Listing>, keys: seq<string>, k: nat)
    requires 0 < k <= |published|
    requires ViewChanges(published[..k], keys) == ViewChanges(published, keys)
    ensures ViewsEq(View(published[..k], keys), View(published, keys))
    decreases |published| - k
  {
    if k < |published| {
      assert published[..k + 1][..k] == published[..k];
      ChangesGrow(published, keys, k + 1);
      NoChangeNoNews(published, keys, k + 1);
    } else {
      assert published[..k] == published;
    }
  }

  /** One more publication: the slot and the count change exactly when the rows do. */
  lemma SlotStep(published: seq<Listing>, services: Listing, keys: seq<string>)
    ensures var filtered, slot := FilterSnapshot(services, keys), Slot(published, keys);
            var same := slot.Some? && ViewsEq(slot.value, filtered);
            && Slot(published + [services], keys) == (if same then slot else Some(filtered))
            && ViewChanges(published + [services], keys) == ViewChanges(published, keys) + (if same then 0 else 1)
            && (slot.Some? ==> (same <==> Rows(slot.value) == Rows(filtered)))
            && (same ==> Rows(slot.value) == Rows(filtered))
  {
    var all := published + [services];
    assert all[..|all| - 1] == published;
    if published != [] {
      var slot := Slot(published, keys).value;
      ViewsEqIff(slot, FilterSnapshot(services, keys));
      ViewsEqIff(slot, View(published, keys));
      ViewsEqIff(View(published, keys), View(all, keys));
    }
  }

  lemma WrapStep(n: nat)
    ensures (n % GENERATIONS + 1) % GENERATIONS == (n + 1) % GENERATIONS
  {
    assert n == GENERATIONS * (n / GENERATIONS) + n % GENERATIONS;
    if n % GENERATIONS == GENERATIONS - 1 {
      assert n + 1 == GENERATIONS * (n / GENERATIONS + 1);
    }
  }

  datatype WaitOutcome = Snapshot(gen: nat, services: Listing) | Timeout

  class Follower {
    const keys: seq<string>
    var gen: nat
    var snapshot: Option<Listing>
    ghost var published: seq<Listing>

    /** The slot holds the view of the last change, which is equal to the latest publication's, and the
        generation counts the view changes, modulo the width of the counter. */
    ghost predicate Valid()
      reads this
    {
      && gen == ViewChanges(published, keys) % GENERATIONS
      && snapshot == Slot(published, keys)
    }

    constructor (keys: seq<string>)
      ensures Valid() && this.keys == keys && published == []
    {
      this.keys, gen, snapshot, published := keys, 0, None, [];
    }

    /** The slot shows what the latest publication shows. */
    lemma ShowsLatest()
      requires Valid() && published != []
      ensures snapshot.Some? && Rows(snapshot.value) == Rows(FilterSnapshot(published[|published| - 1], keys))
    {
      ViewsEqIff(snapshot.value, View(published, keys));
    }

    /** Replace the slot when the filtered view changed. */
    method Offer(services: Listing)
      requires Valid()
      modifies this
      ensures Valid() && published == old(published) + [services]
      ensures snapshot.Some? && Rows(snapshot.value) == Rows(FilterSnapshot(services, keys))
      ensures gen == if old(snapshot).Some? && Rows(old(snapshot).value) == Rows(FilterSnapshot(services, keys)) then old(gen)
                     else (old(gen) + 1) % 0x1_0000_0000_0000_0000
    {
      var filtered := FilterSnapshot(services, keys);
      SlotStep(published, services, keys);
      WrapStep(ViewChanges(published, keys));
      published := published + [services];
      if snapshot.Some? && ViewsEq(snapshot.value, filtered) {
        return;
      }
      gen := (gen + 1) % GENERATIONS;
      snapshot := Some(filtered);
    }
  }

  class WatchHub {
    var followers: seq<Follower>
    var count: nat

    ghost predicate Valid()
      reads this, followers
    {
      && count == |followers| <= MAX_WATCH_FOLLOWERS
      && (forall i, j :: 0 <= i < j < |followers| ==> followers[i] != followers[j])
      && (forall f :: f in followers ==> f.Valid())
    }

    constructor ()
      ensures Valid() && followers == []
    {
      followers, count := [], 0;
    }

    /** A new follower with an empty slot, unless the cap is reached. */
    method TrySubscribe(keys: seq<string>) returns (r: Option<Follower>)
      requires Valid()
      modifies this
      ensures Valid()
      ensures r.None? <==> old(|followers|) == MAX_WATCH_FOLLOWERS
      ensures r.None? ==> followers == old(followers)
      ensures r.Some? ==> fresh(r.value) && followers == old(followers) + [r.value]
                          && r.value.keys == keys && r.value.published == []
    {
      if |followers| >= MAX_WATCH_FOLLOWERS {
        return None;
      }
      var f := new Follower(keys);
      followers := followers + [f];
      count := |followers|;
      r := Some(f);
    }

    /** Every current follower is offered the listing, exactly once; nobody else is touched. */
    method Publish(services: Listing)
      requires Valid()
      modifies followers
      ensures Valid()
      ensures forall f :: f in followers ==> f.published == old(f.published) + [services]
      ensures forall f :: f in followers ==>
                f.snapshot.Some? && Rows(f.snapshot.value) == Rows(FilterSnapshot(services, f.keys))
    {
      if count == 0 {
        return;
      }
      for i := 0 to |followers|
        invariant forall k :: 0 <= k < |followers| ==> followers[k].Valid()
        invariant forall k :: 0 <= k < i ==> followers[k].published == old(followers[k].published) + [services]
        invariant forall k :: i <= k < |followers| ==> followers[k].published == old(followers[k].published)
      {
        followers[i].Offer(services);
      }
      forall f | f in followers
        ensures f.snapshot.Some? && Rows(f.snapshot.value) == Rows(FilterSnapshot(services, f.keys))
      {
        f.ShowsLatest();
      }
    }

    /** Publications in a row, with nobody looking in between. */
    method PublishEach(listings: seq<Listing>)
      requires Valid()
      modifies followers
      ensures Valid()
      ensures forall f :: f in followers ==> f.published == old(f.published) + listings
    {
      for i := 0 to |listings|
        invariant Valid()
        invariant forall f :: f in followers ==> f.published == old(f.published) + listings[..i]
      {
        Publish(listings[i]);
        assert listings[..i + 1] == listings[..i] + [listings[i]];
      }
      assert listings[..|listings|] == listings;
    }

    /** Dropping a subscription removes exactly that follower. */
    method Unsubscribe(f: Follower)
      requires Valid()
      modifies this
      ensures Valid()
      ensures forall g :: g in followers <==> g in old(followers) && g != f
      ensures count == |followers|
    {
      var kept: seq<Follower> := [];
      for i := 0 to |followers|
        invariant followers == old(followers)
        invariant forall g :: g in kept <==> g in followers[..i] && g != f
        invariant |kept| <= i
        invariant forall a, b :: 0 <= a < b < |kept| ==> kept[a] != kept[b]
      {
        assert followers[..i + 1] == followers[..i] + [followers[i]];
        assert followers[i] !in followers[..i];
        if followers[i] != f {
          kept := kept + [followers[i]];
        }
      }
      assert followers[..|followers|] == followers;
      followers := kept;
      count := |followers|;
    }

    /** The slot, exactly when it holds a view under another generation. */
    method Look(f: Follower, seenGen: nat) returns (r: WaitOutcome)
      requires Valid() && f in followers
      ensures r.Snapshot? <==> f.gen != seenGen && f.published != []
      ensures r.Snapshot? ==> f.snapshot == Some(r.services) && r.gen == f.gen
      ensures r.Snapshot? ==> Rows(r.services) == Rows(View(f.published, f.keys))
    {
      if f.snapshot.Some? {
        ViewsEqIff(f.snapshot.value, View(f.published, f.keys));
      }
      r := if f.gen != seenGen && f.snapshot.Some? then Snapshot(f.gen, f.snapshot.value) else Timeout;
    }

    /** Wait for a generation other than `seenGen`; `arrivals` are the listings published between one
        look at the slot and the next, and the deadline passes after the last of them. `consumed` says
        after how many publications the caller last looked. A wait that times out has missed no view
        change, and shows so, exactly when there were fewer than 2^64 since that look. */
    method WaitTimeout(f: Follower, seenGen: nat, arrivals: seq<seq<Listing>>, ghost consumed: nat) returns (r: WaitOutcome)
      requires Valid() && f in followers && consumed <= |f.published|
      requires seenGen == ViewChanges(f.published[..consumed], f.keys) % GENERATIONS
      modifies followers
      ensures Valid() && old(f.published) <= f.published
      ensures r.Snapshot? ==> f.snapshot == Some(r.services) && r.gen == f.gen != seenGen
      ensures r.Snapshot? ==> f.published != [] && Rows(r.services) == Rows(View(f.published, f.keys))
      ensures r.Timeout? ==> f.published == old(f.published) + Flatten(arrivals)
      ensures r.Timeout? && f.published != [] ==>
                (NewChanges(f.published, f.keys, consumed) == 0 <==> NewChanges(f.published, f.keys, consumed) < GENERATIONS)
      ensures r.Timeout? && f.published != [] && NewChanges(f.published, f.keys, consumed) < GENERATIONS ==>
                consumed > 0 && Rows(View(f.published[..consumed], f.keys)) == Rows(View(f.published, f.keys))
    {
      for i := 0 to |arrivals|
        invariant Valid()
        invariant f.published == old(f.published) + Flatten(arrivals[..i])
      {
        r := Look(f, seenGen);
        if r.Snapshot? {
          return;
        }
        PublishEach(arrivals[i]);
        assert arrivals[..i + 1][..i] == arrivals[..i];
        Associate(old(f.published), Flatten(arrivals[..i]), arrivals[i]);
      }
      assert arrivals[..|arrivals|] == arrivals;
      r := Look(f, seenGen);
      if r.Snapshot? {
        return;
      }
      assert f.published[..consumed] == old(f.published)[..consumed];
      if f.published != [] {
        CaughtUpIff(f.published, f.keys, consumed);
        if NewChanges(f.published, f.keys, consumed) < GENERATIONS {
          CaughtUp(f.published, f.keys, consumed);
          ViewsEqIff(View(f.published[..consumed], f.keys), View(f.published, f.keys));
        }
      }
    }
  }

  /** View changes since the first `k` publications. */
  function NewChanges(published: seq<Listing>, keys: seq<string>, k: nat): int
    requires k <= |published|
  {
    ViewChanges(published, keys) - ViewChanges(published[..k], keys)
  }

  /** Under the same wrapped generation, nothing has changed since the last look if and only if there were
      fewer than 2^64 changes since. */
  lemma CaughtUpIff(published: seq<Listing>, keys: seq<string>, consumed: nat)
    requires consumed <= |published|
    requires ViewChanges(published[..consumed], keys) % GENERATIONS == ViewChanges(published, keys) % GENERATIONS
    ensures NewChanges(published, keys, consumed) == 0 <==> NewChanges(published, keys, consumed) < GENERATIONS
  {
    ChangesGrow(published, keys, consumed);
  }

  /** Nothing has changed since the last look: the caller has seen the latest view. */
  lemma CaughtUp(published: seq<Listing>, keys: seq<string>, consumed: nat)
    requires consumed <= |published| && published != [] && NewChanges(published, keys, consumed) == 0
    ensures consumed > 0 && ViewsEq(View(published[..consumed], keys), View(published, keys))
  {
    ChangesGrow(published, keys, 1);
    assert published[..1][..0] == [];
    assert ViewChanges(published[..1], keys) == 1;
    assert published[..0] == [];
    NoChangeNoNews(published, keys, consumed);
  }

  /** When every publication changes the view, the count is the number of publications. */
  lemma {:induction false} EveryChangeCounts(published: seq<Listing>, keys: seq<string>)
    requires forall i :: 0 < i < |published| ==> !ViewsEq(FilterSnapshot(published[i - 1], keys), FilterSnapshot(published[i], keys))
    ensures ViewChanges(published, keys) == |published|
    decreases |published|
  {
    if published != [] {
      EveryChangeCounts(published[..|published| - 1], keys);
    }
  }

  /** `a` and `b` in turn, 2^64 times, and then `c`. */
  function InTurn(a: Listing, b: Listing, c: Listing): (r: seq<Listing>)
    ensures |r| == GENERATIONS + 1
  {
    seq(GENERATIONS + 1, i => if i == GENERATIONS then c else if i % 2 == 0 then a else b)
  }

  /** The bound is needed: a caller that looked after the first publication waits through 2^64 view changes,
      finds the generation it knows, and times out without having seen the latest view. */
  lemma WrapMissesView(f: Follower, a: Listing, b: Listing, c: Listing)
    requires f.Valid() && f.keys == [] && f.published == InTurn(a, b, c)
    requires !ViewsEq(a, b) && !ViewsEq(b, a) && !ViewsEq(b, c) && !ViewsEq(a, c)
    ensures f.gen == ViewChanges(f.published[..1], f.keys) % GENERATIONS
    ensures !ViewsEq(View(f.published[..1], f.keys), View(f.published, f.keys))
    ensures NewChanges(f.published, f.keys, 1) == GENERATIONS
  {
    EveryChangeCounts(f.published, f.keys);
    EveryChangeCounts(f.published[..1], f.keys);
  }
}
