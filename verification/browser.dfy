/** Every instance of the hook at one origin: the slot all tabs share and,
    per tab, the lists of the instances mounted in it. A write from tab `t`
    delivers the platform's `storage` event to every other tab, and a
    dispatch in tab `t` delivers the same-tab notification to every instance
    in `t`. Events are delivered at once, so interleavings of writes from
    several tabs are not represented.
 */
module Browser {
  import opened Bookings
  import opened Storage
  import PendingStore

  /** One tab: the list held by each hook instance mounted in it. */
  type Tab = seq<seq<Booking>>

  /** `tabs[t][i]` is the list held by instance `i` of tab `t`. */
  datatype Origin = Origin(slot: Slot, tabs: seq<Tab>)

  /** Instance `i` of tab `t` is mounted. */
  predicate Mounted(o: Origin, t: int, i: int) {
    0 <= t < |o.tabs| && 0 <= i < |o.tabs[t]|
  }

  /** The list a newly mounted instance loads from the shared slot. */
  function Loaded(o: Origin): seq<Booking> {
    PendingStore.InitialLoad(true, o.slot)
  }

  /** Every mounted instance in every tab is coherent with the shared slot. */
  ghost predicate Synced(o: Origin) {
    forall t, i :: 0 <= t < |o.tabs| && 0 <= i < |o.tabs[t]| ==>
      PendingStore.Coherent(PendingStore.Store(o.slot, o.tabs[t][i]))
  }

  /** Same number of tabs, and of instances in each tab. */
  ghost predicate SameShape(a: Origin, b: Origin) {
    |a.tabs| == |b.tabs| && forall t :: 0 <= t < |a.tabs| ==> |a.tabs[t]| == |b.tabs[t]|
  }

  /** Every instance of one tab runs the cross-tab handler on `e`. */
  function DeliverStorageEvent(tab: Tab, slot: Slot, e: StorageEvent): (r: Tab)
    ensures |r| == |tab|
    ensures e.key == Some(StorageKey) && Parse(e.newValue).Some? ==>
      forall i :: 0 <= i < |r| ==> r[i] == Parse(e.newValue).value
    ensures !(e.key == Some(StorageKey) && Parse(e.newValue).Some?) ==> r == tab
  {
    seq(|tab|, i requires 0 <= i < |tab| => PendingStore.OnStorageEvent(PendingStore.Store(slot, tab[i]), e).mem)
  }

  /** Tab `t` sets (or, with `None`, removes) the key. The platform fires the
      `storage` event in every other tab, and only when the stored value
      actually changes.
   */
  function Write(o: Origin, t: int, v: Slot): (r: Origin)
    requires 0 <= t < |o.tabs|
    ensures r.slot == v && SameShape(o, r) && r.tabs[t] == o.tabs[t]
    ensures r.tabs != o.tabs ==> v != o.slot && Parse(v).Some?
    ensures v != o.slot && Parse(v).Some? ==> forall k, i :: 0 <= k < |o.tabs| && k != t && 0 <= i < |o.tabs[k]| ==>
      r.tabs[k][i] == Parse(v).value
  {
    if v == o.slot then Origin(v, o.tabs)
    else
      var e := StorageEvent(Some(StorageKey), v);
      Origin(v, seq(|o.tabs|, k requires 0 <= k < |o.tabs| =>
        if k == t then o.tabs[k] else DeliverStorageEvent(o.tabs[k], v, e)))
  }

  /** The same-tab notification: every instance of tab `t` re-reads the slot. */
  function NotifyTab(o: Origin, t: int): (r: Origin)
    requires 0 <= t < |o.tabs|
    ensures r.slot == o.slot && SameShape(o, r)
    ensures forall k :: 0 <= k < |o.tabs| && k != t ==> r.tabs[k] == o.tabs[k]
    ensures Parse(o.slot).Some? ==> forall i :: 0 <= i < |o.tabs[t]| ==> r.tabs[t][i] == Parse(o.slot).value
    ensures Parse(o.slot).None? ==> r == o
  {
    var tab := o.tabs[t];
    var refreshed := seq(|tab|, i requires 0 <= i < |tab| =>
      PendingStore.OnSameTabEvent(PendingStore.Store(o.slot, tab[i])).mem);
    assert Parse(o.slot).None? ==> refreshed == tab;
    Origin(o.slot, o.tabs[t := refreshed])
  }

  /** Instance `i` of tab `t` persists `list`, adopts it, and notifies its tab.
      Afterwards the whole tab holds `list`; another tab holds `list` too
      unless the slot already held it, in which case no event reaches it.
   */
  function Dispatch(o: Origin, t: int, i: int, list: seq<Booking>): (r: Origin)
    requires Mounted(o, t, i)
    ensures r.slot == Some(Valid(list)) && SameShape(o, r)
    ensures forall j :: 0 <= j < |r.tabs[t]| ==> r.tabs[t][j] == list
    ensures forall k, j :: 0 <= k < |o.tabs| && k != t && 0 <= j < |o.tabs[k]| ==>
      r.tabs[k][j] == (if o.slot == Some(Valid(list)) then o.tabs[k][j] else list)
    ensures Synced(o) ==> Synced(r)
  {
    var written := Write(o, t, Some(Valid(list)));
    var adopted := Origin(written.slot, written.tabs[t := written.tabs[t][i := list]]);
    NotifyTab(adopted, t)
  }

  /** `addPendingBooking` called on instance `i` of tab `t`. */
  function AddAt(o: Origin, t: int, i: int, b: Booking): (r: Origin)
    requires Mounted(o, t, i)
    ensures SameShape(o, r)
    ensures ContainsTx(o.tabs[t][i], b.txId) ==> r == o
    ensures !ContainsTx(o.tabs[t][i], b.txId) ==>
      r.slot == Some(Valid(o.tabs[t][i] + [b])) && forall j :: 0 <= j < |r.tabs[t]| ==> r.tabs[t][j] == o.tabs[t][i] + [b]
    ensures Synced(o) ==> Synced(r)
  {
    if ContainsTx(o.tabs[t][i], b.txId) then o
    else Dispatch(o, t, i, o.tabs[t][i] + [b])
  }

  /** `removePendingBooking` called on instance `i` of tab `t`. */
  function RemoveAt(o: Origin, t: int, i: int, id: string): (r: Origin)
    requires Mounted(o, t, i)
    ensures r.slot.Some? && r.slot.value.Valid?
    ensures !ContainsTx(r.slot.value.bookings, id)
    ensures forall b :: b in r.slot.value.bookings <==> b in o.tabs[t][i] && b.txId != id
    ensures IsSubsequence(r.slot.value.bookings, o.tabs[t][i])
    ensures forall x :: IsSubsequence(x, o.tabs[t][i]) && !ContainsTx(x, id) ==>
      |x| <= |r.slot.value.bookings| && (|x| == |r.slot.value.bookings| ==> x == r.slot.value.bookings)
    ensures SameShape(o, r)
    ensures forall j :: 0 <= j < |r.tabs[t]| ==> r.tabs[t][j] == r.slot.value.bookings
    ensures Synced(o) ==> Synced(r)
  {
    var list := Without(o.tabs[t][i], id);
    WithoutKeepsOrder(o.tabs[t][i], id);
    WithoutMembers(o.tabs[t][i], id);
    assert forall x :: IsSubsequence(x, o.tabs[t][i]) && !ContainsTx(x, id) ==>
      |x| <= |list| && (|x| == |list| ==> x == list) by {
      forall x | IsSubsequence(x, o.tabs[t][i]) && !ContainsTx(x, id) {
        WithoutIsLongestAvoiding(x, o.tabs[t][i], id);
      }
    }
    Dispatch(o, t, i, Without(o.tabs[t][i], id))
  }

  /** `clearPendingBookings` called on instance `i` of tab `t`: dispatch the
      empty list, then remove the key. The removal's `storage` event carries
      no value, so the other tabs keep the empty list the first write gave them.
   */
  function ClearAt(o: Origin, t: int, i: int): (r: Origin)
    requires Mounted(o, t, i)
    ensures r.slot == None && SameShape(o, r)
    ensures forall j :: 0 <= j < |r.tabs[t]| ==> r.tabs[t][j] == []
    ensures o.slot != Some(Valid([])) ==> forall k, j :: 0 <= k < |r.tabs| && 0 <= j < |r.tabs[k]| ==> r.tabs[k][j] == []
    ensures Synced(o) ==> Synced(r)
  {
    var dispatched := Dispatch(o, t, i, []);
    Write(dispatched, t, None)
  }

  /** A new instance mounts in tab `t` and loads the slot. */
  function MountAt(o: Origin, t: int): (r: Origin)
    requires 0 <= t < |o.tabs|
    ensures r.slot == o.slot && |r.tabs| == |o.tabs| && |r.tabs[t]| == |o.tabs[t]| + 1
    ensures r.tabs[t][|o.tabs[t]|] == Loaded(o)
    ensures Synced(o) ==> Synced(r)
  {
    Origin(o.slot, o.tabs[t := o.tabs[t] + [Loaded(o)]])
  }

  /** Instance `i` of tab `t` unmounts and its listeners are removed. */
  function UnmountAt(o: Origin, t: int, i: int): (r: Origin)
    requires Mounted(o, t, i)
    ensures r.slot == o.slot && |r.tabs| == |o.tabs| && |r.tabs[t]| == |o.tabs[t]| - 1
    ensures Synced(o) ==> Synced(r)
  {
    Origin(o.slot, o.tabs[t := o.tabs[t][..i] + o.tabs[t][i + 1..]])
  }

  /** One thing that can happen at the origin. */
  datatype Step =
    | AddStep(t: int, i: int, b: Booking)
    | RemoveStep(t: int, i: int, id: string)
    | ClearStep(t: int, i: int)
    | MountStep(t: int)
    | UnmountStep(t: int, i: int)
    | OpenTab

  /** Apply a step; a step that names no mounted instance or no open tab does nothing. */
  function Apply(o: Origin, s: Step): (r: Origin)
    ensures Synced(o) ==> Synced(r)
  {
    match s
    case AddStep(t, i, b) => if Mounted(o, t, i) then AddAt(o, t, i, b) else o
    case RemoveStep(t, i, id) => if Mounted(o, t, i) then RemoveAt(o, t, i, id) else o
    case ClearStep(t, i) => if Mounted(o, t, i) then ClearAt(o, t, i) else o
    case MountStep(t) => if 0 <= t < |o.tabs| then MountAt(o, t) else o
    case UnmountStep(t, i) => if Mounted(o, t, i) then UnmountAt(o, t, i) else o
    case OpenTab => Origin(o.slot, o.tabs + [[]])
  }

  /** Apply the steps in order. */
  function Run(o: Origin, steps: seq<Step>): Origin
    decreases |steps|
  {
    if steps == [] then o else Run(Apply(o, steps[0]), steps[1..])
  }

  /** Synchronisation: once every instance agrees with the slot, every
      instance in every tab keeps agreeing with it, whatever sequence of adds,
      removes, clears, mounts, unmounts and new tabs follows.
   */
  lemma {:induction false} RunKeepsSynced(o: Origin, steps: seq<Step>)
    requires Synced(o)
    ensures Synced(Run(o, steps))
    decreases |steps|
  {
    if steps != [] {
      RunKeepsSynced(Apply(o, steps[0]), steps[1..]);
    }
  }

  /** From a browser with no page open, whatever the slot holds (absent,
      readable or corrupt), every instance ever mounted shows the slot's list
      and all instances show the same list.
   */
  lemma AllInstancesAgree(slot: Slot, steps: seq<Step>)
    ensures Synced(Run(Origin(slot, []), steps))
    ensures var o := Run(Origin(slot, []), steps);
      forall t, i, k, j :: Mounted(o, t, i) && Mounted(o, k, j) ==> o.tabs[t][i] == o.tabs[k][j]
  {
    RunKeepsSynced(Origin(slot, []), steps);
  }

  /** Cross-tab scenario: when all instances agree, a booking added in one tab
      appears in every instance of every tab.
   */
  lemma AddReachesOtherTabs(o: Origin, t: int, i: int, b: Booking)
    requires Synced(o) && Mounted(o, t, i) && !ContainsTx(o.tabs[t][i], b.txId)
    ensures forall k, j :: Mounted(AddAt(o, t, i, b), k, j) ==> b in AddAt(o, t, i, b).tabs[k][j]
  {
  }
}
