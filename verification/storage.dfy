/** The browser's durable key-value slot as the pending-booking hook sees it,
    and the `storage` event the platform fires in other tabs when the slot
    changes. Serialisation is abstracted: a slot either holds text that
    `JSON.parse` reads as a list of bookings, or text it rejects.
 */
module Storage {
  import opened Bookings

  datatype Option<+T> = None | Some(value: T)

  /** Key of the one slot the hook reads and writes. */
  const StorageKey: string := "stackstay_pending_bookings"

  /** Text found under the key. `Valid(bs)` is text that parses to the list
      `bs`; `Corrupt` is text that `JSON.parse` rejects, the empty string
      included (every read path treats the empty string exactly as it treats
      unparseable text).
   */
  datatype SlotContent = Valid(bookings: seq<Booking>) | Corrupt

  /** `localStorage.getItem(key)`: `None` when the key is absent. */
  type Slot = Option<SlotContent>

  /** A `storage` event: the key that changed (`None` when the whole storage
      area was cleared) and the new text (`None` when the key was removed).
   */
  datatype StorageEvent = StorageEvent(key: Option<string>, newValue: Slot)

  /** The list a slot holds, if it holds a readable one. */
  function Parse(slot: Slot): (r: Option<seq<Booking>>)
    ensures r.Some? <==> slot.Some? && slot.value.Valid?
    ensures r.Some? ==> slot == Some(Valid(r.value))
  {
    match slot
    case Some(Valid(bs)) => Some(bs)
    case _ => None
  }
}
