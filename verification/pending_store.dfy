/** One instance of the `usePendingBookings` hook: its in-memory list and the
    durable slot it mirrors, with every transition written as a pure function
    over that pair. React's state setter becomes replacing `mem`; writes and
    removals of the storage key become replacing `slot`.
 */
module PendingStore {
  import opened Bookings
  import opened Storage

  /** The slot as this instance last saw it, and the instance's list. */
  datatype Store = Store(slot: Slot, mem: seq<Booking>)

  /** The list a fresh instance starts with. Without a window (server-side
      rendering) it is empty; otherwise it is the slot's list, falling back to
      the empty list when the key is absent or its text does not parse.
   */
  function InitialLoad(hasWindow: bool, slot: Slot): (r: seq<Booking>)
    ensures r == [] || (hasWindow && slot == Some(Valid(r)))
    ensures hasWindow && Parse(slot).Some? ==> r == Parse(slot).value
  {
    if !hasWindow then []
    else match slot
      case None => []
      case Some(Corrupt) => []
      case Some(Valid(bs)) => bs
  }

  /** The in-memory list is what a fresh load of the slot would give. */
  ghost predicate Coherent(s: Store) {
    s.mem == InitialLoad(true, s.slot)
  }

  /** Same-tab notification handler: re-read the slot and adopt its list when
      there is one; an absent or unreadable slot leaves the list as it was.
   */
  function OnSameTabEvent(s: Store): (r: Store)
    ensures r.slot == s.slot
    ensures Parse(s.slot).Some? ==> r.mem == Parse(s.slot).value
    ensures Parse(s.slot).None? ==> r == s
  {
    match s.slot
    case Some(Valid(bs)) => Store(s.slot, bs)
    case _ => s
  }

  /** Cross-tab `storage` event handler: adopt the event's new text when it is
      for this key, present, and parses; otherwise keep the list.
   */
  function OnStorageEvent(s: Store, e: StorageEvent): (r: Store)
    ensures r.slot == s.slot
    ensures r.mem != s.mem ==> e.key == Some(StorageKey) && e.newValue == Some(Valid(r.mem))
    ensures e.key == Some(StorageKey) && Parse(e.newValue).Some? ==> r.mem == Parse(e.newValue).value
  {
    if e.key == Some(StorageKey) && e.newValue.Some? then
      match e.newValue.value
      case Valid(bs) => Store(s.slot, bs)
      case Corrupt => s
    else s
  }

  /** Persist `list`, adopt it, and notify the tab. The notification reaches
      this instance as well, which re-reads the slot it has just written.
   */
  function DispatchUpdate(list: seq<Booking>): (r: Store)
    ensures r.slot == Some(Valid(list))
    ensures r.mem == list
    ensures Coherent(r)
  {
    var written := Store(Some(Valid(list)), list);
    OnSameTabEvent(written)
  }

  /** Append `b` unless a booking with its transaction id is already listed. */
  function Add(s: Store, b: Booking): (r: Store)
    ensures ContainsTx(s.mem, b.txId) ==> r == s
    ensures !ContainsTx(s.mem, b.txId) ==> r.mem == s.mem + [b] && r.slot == Some(Valid(r.mem))
    ensures ContainsTx(r.mem, b.txId)
    ensures UniqueTxIds(s.mem) ==> UniqueTxIds(r.mem)
  {
    if ContainsTx(s.mem, b.txId) then s
    else
      var appended := s.mem + [b];
      assert appended[|s.mem|] == b;
      DispatchUpdate(appended)
  }

  /** Drop every booking with transaction id `id` and persist the rest, even
      when nothing was dropped.
   */
  function Remove(s: Store, id: string): (r: Store)
    ensures !ContainsTx(r.mem, id)
    ensures IsSubsequence(r.mem, s.mem)
    ensures forall x :: IsSubsequence(x, s.mem) && !ContainsTx(x, id) ==>
      |x| <= |r.mem| && (|x| == |r.mem| ==> x == r.mem)
    ensures forall b :: b in r.mem <==> b in s.mem && b.txId != id
    ensures !ContainsTx(s.mem, id) ==> r.mem == s.mem
    ensures UniqueTxIds(s.mem) ==> UniqueTxIds(r.mem)
    ensures r.slot == Some(Valid(r.mem))
  {
    WithoutKeepsOrder(s.mem, id);
    WithoutMembers(s.mem, id);
    assert forall x :: IsSubsequence(x, s.mem) && !ContainsTx(x, id) ==>
      |x| <= |Without(s.mem, id)| && (|x| == |Without(s.mem, id)| ==> x == Without(s.mem, id)) by {
      forall x | IsSubsequence(x, s.mem) && !ContainsTx(x, id) {
        WithoutIsLongestAvoiding(x, s.mem, id);
      }
    }
    assert !ContainsTx(s.mem, id) ==> Without(s.mem, id) == s.mem by {
      if !ContainsTx(s.mem, id) { WithoutAbsentIsIdentity(s.mem, id); }
    }
    assert UniqueTxIds(s.mem) ==> UniqueTxIds(Without(s.mem, id)) by {
      if UniqueTxIds(s.mem) { WithoutKeepsUnique(s.mem, id); }
    }
    DispatchUpdate(Without(s.mem, id))
  }

  /** Dispatch the empty list, then delete the key: the slot ends absent, not
      holding an empty list.
   */
  function Clear(s: Store): (r: Store)
    ensures r.mem == []
    ensures r.slot == None
    ensures Coherent(r)
  {
    var dispatched := DispatchUpdate([]);
    Store(None, dispatched.mem)
  }

  /** A remove leaves the instance agreeing with the slot it wrote, whatever
      it held before; an add and the same-tab handler keep an agreeing
      instance agreeing.
   */
  lemma TransitionsKeepCoherent(s: Store, b: Booking, id: string)
    ensures Coherent(Remove(s, id))
    ensures Coherent(s) ==> Coherent(Add(s, b)) && Coherent(OnSameTabEvent(s))
  {
  }

  /** Adding two bookings with the same transaction id keeps only the first:
      the second add changes nothing, and exactly one record carries the id.
   */
  lemma AddSameTxTwiceKeepsFirst(s: Store, b1: Booking, b2: Booking)
    requires b1.txId == b2.txId
    requires !ContainsTx(s.mem, b1.txId)
    ensures Add(Add(s, b1), b2) == Add(s, b1)
    ensures Add(Add(s, b1), b2).mem == s.mem + [b1]
    ensures forall k :: 0 <= k < |Add(Add(s, b1), b2).mem| && Add(Add(s, b1), b2).mem[k].txId == b1.txId ==> k == |s.mem|
  {
  }

  /** Removing a freshly added booking restores the list it was added to. */
  lemma {:induction false} RemoveUndoesFreshAdd(s: Store, b: Booking)
    requires !ContainsTx(s.mem, b.txId)
    ensures Remove(Add(s, b), b.txId).mem == s.mem
  {
    WithoutAppend(s.mem, [b], b.txId);
    WithoutAbsentIsIdentity(s.mem, b.txId);
    assert Without([b], b.txId) == [];
  }

  /** Removing the same transaction id twice is the same as removing it once. */
  lemma RemoveIdempotent(s: Store, id: string)
    ensures Remove(Remove(s, id), id) == Remove(s, id)
  {
  }

  /** An instance mounted after a mutation loads the list the mutation wrote;
      one mounted after a clear loads nothing.
   */
  lemma LoadSeesLastWrite(s: Store, b: Booking, id: string)
    ensures InitialLoad(true, Remove(s, id).slot) == Remove(s, id).mem
    ensures !ContainsTx(s.mem, b.txId) ==> InitialLoad(true, Add(s, b).slot) == s.mem + [b]
    ensures InitialLoad(true, Clear(s).slot) == []
  {
  }

  /** On an absent slot the two read paths differ: a fresh load yields the
      empty list, the same-tab handler keeps whatever the instance held.
   */
  lemma AbsentSlotLoadVersusRefresh(mem: seq<Booking>)
    ensures InitialLoad(true, None) == []
    ensures OnSameTabEvent(Store(None, mem)).mem == mem
  {
  }

  /** The scenario: add tx1, add tx1 again with another property (suppressed),
      then remove tx1.
   */
  lemma DuplicateThenRemoveScenario()
    ensures
      var b1 := Booking("tx1", 5, 1000, 2000, "addr1", 100.0, 999, Pending);
      var b2 := b1.(propertyId := 6);
      var s0 := Store(None, InitialLoad(true, None));
      var s1 := Add(s0, b1);
      var s2 := Add(s1, b2);
      var s3 := Remove(s2, "tx1");
      && s1.mem == [b1]
      && s2.mem == [b1] && s2.mem[0].propertyId == 5
      && s3.mem == []
      && s3.slot == Some(Valid([]))
  {
  }
}
