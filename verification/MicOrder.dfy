/**
  The displayed microphone order: devices named in the owner's priority list first, in that
  order, then the others as the system lists them. The priority list may repeat ids and name
  devices that are not present.
*/
module MicOrder {
  import opened Prelude
  import opened Seqs

  datatype Device = Device(id: string, name: string)

  predicate Distinct(devices: seq<Device>) {
    forall i, j :: 0 <= i < j < |devices| ==> devices[i].id != devices[j].id
  }

  function Ids(devices: seq<Device>): seq<string> { seq(|devices|, i requires 0 <= i < |devices| => devices[i].id) }

  /** The device a map keyed by id would hold: the last with that id. */
  function Lookup(devices: seq<Device>, id: string): Option<Device> {
    if devices == [] then None
    else if devices[|devices| - 1].id == id then Some(devices[|devices| - 1])
    else Lookup(devices[..|devices| - 1], id)
  }

  /** The present devices the list names, each at its first mention. */
  function Prioritised(priority: seq<string>, devices: seq<Device>): seq<Device> {
    if priority == [] then []
    else
      var out := Prioritised(priority[..|priority| - 1], devices);
      var id := priority[|priority| - 1];
      var d := Lookup(devices, id);
      if d.Some? && id !in Ids(out) then out + [d.value] else out
  }

  /** The devices whose id is neither in `seen` nor taken before, as listed. */
  function Others(devices: seq<Device>, seen: seq<string>): seq<Device> {
    if devices == [] then []
    else
      var out := Others(devices[..|devices| - 1], seen);
      var d := devices[|devices| - 1];
      if d.id in seen || d.id in Ids(out) then out else out + [d]
  }

  function Ordered(priority: seq<string>, devices: seq<Device>): seq<Device> {
    Prioritised(priority, devices) + Others(devices, Ids(Prioritised(priority, devices)))
  }

  /** `orderedMicDevices`. */
  method OrderedMicDevices(priority: seq<string>, devices: seq<Device>) returns (out: seq<Device>)
    ensures out == Ordered(priority, devices)
  {
    var byId: map<string, Device> := map[];
    for n := 0 to |devices|
      invariant forall id :: Lookup(devices[..n], id) == if id in byId then Some(byId[id]) else None
    {
      assert devices[..n + 1][..n] == devices[..n];
      byId := byId[devices[n].id := devices[n]];
    }
    assert devices[..|devices|] == devices;
    out := [];
    var seen: set<string> := {};
    for n := 0 to |priority|
      invariant out == Prioritised(priority[..n], devices)
      invariant forall id :: id in seen <==> id in Ids(out)
    {
      assert priority[..n + 1][..n] == priority[..n];
      var id := priority[n];
      assert Lookup(devices, id) == if id in byId then Some(byId[id]) else None;
      if id in byId && id !in seen {
        LookupFinds(devices, id);
        IdsSnoc(out, byId[id]);
        out := out + [byId[id]];
        seen := seen + {id};
      }
    }
    assert priority[..|priority|] == priority;
    ghost var first := out;
    for n := 0 to |devices|
      invariant out == first + Others(devices[..n], Ids(first))
      invariant forall id :: id in seen <==> id in Ids(first) || id in Ids(Others(devices[..n], Ids(first)))
    {
      assert devices[..n + 1][..n] == devices[..n];
      var d := devices[n];
      if d.id !in seen {
        IdsSnoc(Others(devices[..n], Ids(first)), d);
        out := out + [d];
        seen := seen + {d.id};
      }
    }
    assert devices[..|devices|] == devices;
  }

  lemma IdsSnoc(devices: seq<Device>, d: Device)
    ensures Ids(devices + [d]) == Ids(devices) + [d.id]
  {
  }

  lemma {:induction false} LookupFinds(devices: seq<Device>, id: string)
    ensures Lookup(devices, id).Some? <==> id in Ids(devices)
    ensures Lookup(devices, id).Some? ==> Lookup(devices, id).value in devices && Lookup(devices, id).value.id == id
  {
    if devices == [] {
    } else {
      var init, last := devices[..|devices| - 1], devices[|devices| - 1];
      LookupFinds(init, id);
      IdsSnoc(init, last);
      assert devices == init + [last];
    }
  }

  // ----- what is displayed ------------------------------------------------------------

  /** Where `id` is first mentioned. */
  function FirstMention(priority: seq<string>, id: string): nat
    requires id in priority
  {
    if priority[0] == id then 0 else 1 + FirstMention(priority[1..], id)
  }

  lemma {:induction false} FirstMentionIs(priority: seq<string>, id: string)
    requires id in priority
    ensures FirstMention(priority, id) < |priority| && priority[FirstMention(priority, id)] == id
    ensures forall i :: 0 <= i < FirstMention(priority, id) ==> priority[i] != id
  {
    if priority[0] != id { FirstMentionIs(priority[1..], id); }
  }

  lemma FirstMentionSnoc(priority: seq<string>, last: string, id: string)
    requires id in priority
    ensures FirstMention(priority + [last], id) == FirstMention(priority, id)
  {
    var longer := priority + [last];
    FirstMentionIs(priority, id);
    FirstMentionIs(longer, id);
    assert longer[FirstMention(priority, id)] == id;
    assert forall i :: 0 <= i < |priority| ==> longer[i] == priority[i];
  }

  /** `p` is exactly the present, prioritised devices, in order of first mention. */
  ghost predicate InPriorityOrder(p: seq<Device>, priority: seq<string>, devices: seq<Device>) {
    && (forall id :: id in Ids(p) <==> id in priority && id in Ids(devices))
    && (forall i :: 0 <= i < |p| ==> p[i] in devices && p[i].id in priority)
    && (forall i, j :: 0 <= i < j < |p| ==> FirstMention(priority, p[i].id) < FirstMention(priority, p[j].id))
  }

  lemma {:induction false} PrioritisedInOrder(priority: seq<string>, devices: seq<Device>)
    ensures InPriorityOrder(Prioritised(priority, devices), priority, devices)
  {
    if priority == [] {
    } else {
      var init, id := priority[..|priority| - 1], priority[|priority| - 1];
      assert priority == init + [id];
      PrioritisedInOrder(init, devices);
      LookupFinds(devices, id);
      var before := Prioritised(init, devices);
      forall i | 0 <= i < |before| ensures FirstMention(priority, before[i].id) == FirstMention(init, before[i].id) < |init| {
        FirstMentionSnoc(init, id, before[i].id);
        FirstMentionIs(init, before[i].id);
      }
      if Lookup(devices, id).Some? && id !in Ids(before) {
        IdsSnoc(before, Lookup(devices, id).value);
        FirstMentionIs(priority, id);
        assert id !in init;
      }
    }
  }

  /** `o` is exactly the devices not in `seen`, in the order the system lists them. */
  ghost predicate InListedOrder(o: seq<Device>, devices: seq<Device>, seen: seq<string>) {
    && (forall id :: id in Ids(o) <==> id in Ids(devices) && id !in seen)
    && (forall i :: 0 <= i < |o| ==> o[i] in devices && o[i].id in Ids(devices))
    && (forall i, j :: 0 <= i < j < |o| ==> FirstMention(Ids(devices), o[i].id) < FirstMention(Ids(devices), o[j].id))
  }

  lemma {:induction false} OthersInOrder(devices: seq<Device>, seen: seq<string>)
    ensures InListedOrder(Others(devices, seen), devices, seen)
  {
    if devices == [] {
    } else {
      var init, d := devices[..|devices| - 1], devices[|devices| - 1];
      assert devices == init + [d];
      IdsSnoc(init, d);
      OthersInOrder(init, seen);
      var before := Others(init, seen);
      forall i | 0 <= i < |before|
        ensures FirstMention(Ids(devices), before[i].id) == FirstMention(Ids(init), before[i].id) < |init|
      {
        FirstMentionSnoc(Ids(init), d.id, before[i].id);
        FirstMentionIs(Ids(init), before[i].id);
      }
      if d.id !in seen && d.id !in Ids(before) {
        IdsSnoc(before, d);
        FirstMentionIs(Ids(devices), d.id);
        assert d.id !in Ids(init);
      }
    }
  }

  lemma OrderIsDistinct(priority: seq<string>, devices: seq<Device>)
    ensures Distinct(Ordered(priority, devices))
    ensures forall id :: id in Ids(Ordered(priority, devices)) <==> id in Ids(devices)
    ensures forall d :: d in Ordered(priority, devices) ==> d in devices
  {
    var p := Prioritised(priority, devices);
    var o := Others(devices, Ids(p));
    PrioritisedInOrder(priority, devices);
    OthersInOrder(devices, Ids(p));
    assert Ids(p + o) == Ids(p) + Ids(o);
    forall i, j | 0 <= i < j < |p + o| ensures (p + o)[i].id != (p + o)[j].id {
      if i < |p| <= j {
        assert Ids(p)[i] == p[i].id && Ids(o)[j - |p|] == o[j - |p|].id;
        assert o[j - |p|].id in Ids(o);
      }
    }
  }

  lemma MemberById(devices: seq<Device>, d: Device, e: Device)
    requires Distinct(devices) && d in devices && e in devices && d.id == e.id
    ensures d == e
  {
  }

  /** A list shown with its ids all different is the device list rearranged only if no two
      devices share an id. */
  lemma PermutationIsDistinct(shown: seq<Device>, devices: seq<Device>)
    requires Distinct(shown) && multiset(shown) == multiset(devices)
    ensures Distinct(devices)
  {
    forall i, j | 0 <= i < j < |devices| ensures devices[i].id != devices[j].id {
      if devices[i].id == devices[j].id {
        assert devices[i] in multiset(devices) && devices[j] in multiset(devices);
        MemberById(shown, devices[i], devices[j]);
        TwoPlaces(devices, devices[i]);
        TwoPlaces(shown, devices[i]);
      }
    }
  }

  /** What is displayed: the prioritised devices first, in order of first mention, then the rest
      in the order the system lists them, every id once. It is a permutation of the devices
      exactly when no two of them share an id. */
  lemma DisplayedOrder(priority: seq<string>, devices: seq<Device>)
    ensures
      var p := Prioritised(priority, devices);
      var o := Others(devices, Ids(p));
      && Ordered(priority, devices) == p + o
      && InPriorityOrder(p, priority, devices)
      && InListedOrder(o, devices, Ids(p))
    ensures Distinct(Ordered(priority, devices))
    ensures multiset(Ordered(priority, devices)) == multiset(devices) <==> Distinct(devices)
  {
    PrioritisedInOrder(priority, devices);
    OthersInOrder(devices, Ids(Prioritised(priority, devices)));
    OrderIsDistinct(priority, devices);
    var all := Ordered(priority, devices);
    if Distinct(devices) {
      forall d | d in devices ensures d in all {
        var i :| 0 <= i < |devices| && devices[i] == d;
        assert Ids(devices)[i] == d.id;
        assert d.id in Ids(all);
        var k :| 0 <= k < |all| && Ids(all)[k] == d.id;
        MemberById(devices, all[k], d);
      }
      SameMembers(all, devices);
    }
    if multiset(all) == multiset(devices) { PermutationIsDistinct(all, devices); }
  }

  // ----- storing an order -------------------------------------------------------------

  /** `ids` arranges the ids of the devices: each present id once. */
  ghost predicate Arranges(ids: seq<string>, devices: seq<Device>) {
    && (forall i, j :: 0 <= i < j < |ids| ==> ids[i] != ids[j])
    && forall id :: id in ids <==> id in Ids(devices)
  }

  /** Each id's entry, as the map keyed by id holds it. */
  ghost predicate LooksUp(shown: seq<Device>, ids: seq<string>, devices: seq<Device>) {
    |shown| == |ids| && forall i :: 0 <= i < |ids| ==> Lookup(devices, ids[i]) == Some(shown[i])
  }

  lemma LooksUpIds(shown: seq<Device>, ids: seq<string>, devices: seq<Device>)
    requires LooksUp(shown, ids, devices)
    ensures Ids(shown) == ids
  {
    forall i | 0 <= i < |ids| ensures Ids(shown)[i] == ids[i] { LookupFinds(devices, ids[i]); }
  }

  lemma {:induction false} StoredPrefix(ids: seq<string>, devices: seq<Device>, n: nat)
    requires Arranges(ids, devices) && n <= |ids|
    ensures LooksUp(Prioritised(ids[..n], devices), ids[..n], devices)
  {
    if n == 0 {
    } else {
      StoredPrefix(ids, devices, n - 1);
      assert ids[..n][..n - 1] == ids[..n - 1];
      LooksUpIds(Prioritised(ids[..n - 1], devices), ids[..n - 1], devices);
      assert ids[n - 1] in ids;
      LookupFinds(devices, ids[n - 1]);
    }
  }

  lemma {:induction false} NoOthers(devices: seq<Device>, seen: seq<string>)
    requires forall id :: id in Ids(devices) ==> id in seen
    ensures Others(devices, seen) == []
  {
    if devices == [] {
    } else {
      var init, d := devices[..|devices| - 1], devices[|devices| - 1];
      IdsSnoc(init, d);
      assert devices == init + [d];
      NoOthers(init, seen);
    }
  }

  /** Storing any arrangement of the ids displays exactly that arrangement. */
  lemma StoredOrderIsDisplayed(ids: seq<string>, devices: seq<Device>)
    requires Arranges(ids, devices)
    ensures Ids(Ordered(ids, devices)) == ids
    ensures LooksUp(Ordered(ids, devices), ids, devices)
  {
    StoredPrefix(ids, devices, |ids|);
    assert ids[..|ids|] == ids;
    LooksUpIds(Prioritised(ids, devices), ids, devices);
    NoOthers(devices, ids);
  }

  /** Entries `i` and `i + 1` exchanged. */
  function Swapped<T>(s: seq<T>, i: nat): seq<T>
    requires i + 1 < |s|
  {
    s[i := s[i + 1]][i + 1 := s[i]]
  }

  /** The up and down buttons: copy the displayed ids and exchange two neighbours. */
  method ReorderedPriority(displayed: seq<Device>, upper: nat) returns (priority: seq<string>)
    requires upper + 1 < |displayed|
    ensures priority == Ids(Swapped(displayed, upper))
  {
    var o := Ids(displayed);
    var kept := o[upper];
    o := o[upper := o[upper + 1]];
    o := o[upper + 1 := kept];
    priority := o;
  }

  lemma SwappedMembers<T>(s: seq<T>, upper: nat)
    requires upper + 1 < |s|
    ensures forall d :: d in Swapped(s, upper) <==> d in s
  {
    var t := Swapped(s, upper);
    forall k | 0 <= k < |s| ensures s[k] in t {
      assert t[if k == upper then upper + 1 else if k == upper + 1 then upper else k] == s[k];
    }
  }

  /** Pressing an arrow displays exactly the old ids with the two neighbours exchanged, whatever
      the old priority list held and whether or not devices share an id; the devices shown are
      the old ones exchanged exactly when each old one is the last listed with its id. */
  lemma ArrowSwapsNeighbours(priority: seq<string>, devices: seq<Device>, upper: nat)
    requires upper + 1 < |Ordered(priority, devices)|
    ensures
      var shown := Ordered(priority, devices);
      var after := Ordered(Ids(Swapped(shown, upper)), devices);
      && Ids(after) == Swapped(Ids(shown), upper)
      && (after == Swapped(shown, upper) <==> LooksUp(shown, Ids(shown), devices))
  {
    var shown := Ordered(priority, devices);
    var swapped := Swapped(shown, upper);
    var ids := Ids(swapped);
    OrderIsDistinct(priority, devices);
    assert ids == Swapped(Ids(shown), upper);
    SwappedMembers(Ids(shown), upper);
    StoredOrderIsDisplayed(ids, devices);
    if LooksUp(shown, Ids(shown), devices) {
      forall k | 0 <= k < |ids| ensures Lookup(devices, ids[k]) == Some(swapped[k]) {
        var from := if k == upper then upper + 1 else if k == upper + 1 then upper else k;
        assert Lookup(devices, Ids(shown)[from]) == Some(shown[from]);
      }
    }
    if LooksUp(swapped, ids, devices) {
      forall k | 0 <= k < |ids| ensures Lookup(devices, Ids(shown)[k]) == Some(shown[k]) {
        var to := if k == upper then upper + 1 else if k == upper + 1 then upper else k;
        assert Lookup(devices, ids[to]) == Some(swapped[to]);
      }
    }
  }

  /** With no shared id that is always so. */
  lemma DistinctLooksUp(priority: seq<string>, devices: seq<Device>)
    requires Distinct(devices)
    ensures LooksUp(Ordered(priority, devices), Ids(Ordered(priority, devices)), devices)
  {
    var shown := Ordered(priority, devices);
    OrderIsDistinct(priority, devices);
    forall i | 0 <= i < |shown| ensures Lookup(devices, shown[i].id) == Some(shown[i]) {
      assert shown[i] in shown;
      assert Ids(shown)[i] == shown[i].id;
      LookupFinds(devices, shown[i].id);
      MemberById(devices, Lookup(devices, shown[i].id).value, shown[i]);
    }
  }
}
