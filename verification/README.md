# Pending bookings store

A Dafny model of the `usePendingBookings` hook of the StackStay property-rental
front end. The hook keeps a client-side list of bookings whose on-chain transaction
was submitted but not yet confirmed. The list is unique by transaction id. It is
mirrored between each hook instance's in-memory state and one `localStorage` slot
(key `stackstay_pending_bookings`). It is kept in step across components of one tab
by a custom window event, and across tabs by the platform's `storage` event.

The model is layered like the behaviour:

- `Bookings` (`bookings.dfy`): the booking record and the two list operations the
  hook uses. These are the duplicate test (`some` over transaction ids) and the
  removal filter (`filter` on transaction id). Both are proved against independent
  definitions: an existential for the test, and "longest subsequence avoiding the
  id" for the filter.
- `Storage` (`storage.dfy`): the slot as `Option<SlotContent>`. `Valid(list)` is
  text that parses to `list`. `Corrupt` is text that `JSON.parse` rejects.
- `PendingStore` (`pending_store.dfy`): one hook instance as a record
  `Store(slot, mem)`. The initial load, both event handlers, `dispatchUpdate`, add,
  remove and clear are pure functions over this record.
- `Browser` (`browser.dfy`): every instance at one origin. This is the shared slot
  plus, per tab, the list of each mounted instance. Writes deliver the `storage`
  event to the other tabs, and dispatches deliver the same-tab event to the
  writer's tab. The main theorem, `RunKeepsSynced`, says that once all instances
  agree with the slot, they keep agreeing through any sequence of operations.

The hook catches only parse errors (`src/hooks/use-pending-tx.ts:22-27`), so
well-formed JSON of another shape, such as `null`, becomes the state. `Corrupt`
therefore stands only for text the parser rejects, and wrong-shape JSON is left out.

## Model

| member | source | states |
|---|---|---|
| Bookings.ContainsTx | src/hooks/use-pending-tx.ts:72 | the duplicate test is true exactly when some listed booking carries the id |
| Bookings.Without | src/hooks/use-pending-tx.ts:79 | no booking of the filtered list carries the removed id |
| Bookings.WithoutKeepsOrder | src/hooks/use-pending-tx.ts:79 | the filtered list is a subsequence of the input: bookings are only deleted, the rest keep their order |
| Bookings.WithoutMembers | src/hooks/use-pending-tx.ts:79 | a booking is in the filtered list exactly when it was in the input with a different id |
| Bookings.WithoutAbsentIsIdentity | src/hooks/use-pending-tx.ts:79 | filtering an id that is not listed returns the input list unchanged |
| Bookings.WithoutKeepsUnique | src/hooks/use-pending-tx.ts:79 | filtering a list whose ids are distinct leaves them distinct |
| Bookings.WithoutIsLongestAvoiding | src/hooks/use-pending-tx.ts:79 | any subsequence of the list that avoids the id is no longer than the filter's result, and one of equal length is that result: the filter drops exactly the matching bookings |
| Bookings.WithoutAppend | src/hooks/use-pending-tx.ts:79 | filtering a concatenation is the concatenation of the filtered parts, so relative order across the list is preserved |
| Storage.Parse | src/hooks/use-pending-tx.ts:21-23 | a slot yields a list exactly when it is present and readable, and the list is the one it holds |
| PendingStore.InitialLoad | src/hooks/use-pending-tx.ts:19-28 | the first list is either empty or exactly the slot's readable list; with a window and a readable slot it is that list, so an absent or corrupt slot or no window gives the empty list |
| PendingStore.OnStorageEvent | src/hooks/use-pending-tx.ts:32-40 | the cross-tab handler never touches the slot; the list changes only for an event on the hook's key carrying readable text, and then it becomes that text's list |
| PendingStore.OnSameTabEvent | src/hooks/use-pending-tx.ts:42-51 | the same-tab handler adopts the slot's list when the slot is readable and otherwise changes nothing, so an absent slot does not empty the list |
| PendingStore.DispatchUpdate | src/hooks/use-pending-tx.ts:62-67 | after the write, the state update and the instance's own echo of the same-tab event, the slot holds the list and memory equals it |
| PendingStore.Add | src/hooks/use-pending-tx.ts:69-76 | a known id leaves slot and memory unchanged; a fresh id appends the booking at the end and writes the new list to the slot; afterwards the id is listed; distinct ids stay distinct |
| PendingStore.Remove | src/hooks/use-pending-tx.ts:78-81 | afterwards no booking carries the id; the result is a subsequence of the old list and the longest one avoiding the id (any other of that length equals it), so every other booking is kept, repeated copies included, in order; an absent id leaves the list as it was; distinct ids stay distinct; the slot holds the new list |
| PendingStore.Clear | src/hooks/use-pending-tx.ts:83-86 | memory is empty and the slot is absent, not an empty list |
| PendingStore.TransitionsKeepCoherent | src/hooks/use-pending-tx.ts:42-81 | a remove always leaves memory agreeing with a fresh load of the slot it wrote; an add and the same-tab handler keep an instance that agreed with the slot agreeing |
| PendingStore.AddSameTxTwiceKeepsFirst | src/hooks/use-pending-tx.ts:69-76 | adding two bookings with one id keeps only the first, at the end of the old list, and it is the only record with that id |
| PendingStore.RemoveUndoesFreshAdd | src/hooks/use-pending-tx.ts:69-81 | removing a freshly added booking's id restores the list it was added to |
| PendingStore.RemoveIdempotent | src/hooks/use-pending-tx.ts:78-81 | removing an id twice gives the same state as removing it once |
| PendingStore.LoadSeesLastWrite | src/hooks/use-pending-tx.ts:19-86 | an instance mounted after an add or remove loads the list that was written; one mounted after a clear loads nothing |
| PendingStore.AbsentSlotLoadVersusRefresh | src/hooks/use-pending-tx.ts:19-51 | on an absent slot a fresh load gives the empty list while the same-tab handler keeps the held list |
| PendingStore.DuplicateThenRemoveScenario | src/hooks/use-pending-tx.ts:69-81 | add tx1 (property 5), add tx1 again (property 6), remove tx1: one record with property 5 after the second add, then an empty list with the slot holding the empty list |
| Browser.DeliverStorageEvent | src/hooks/use-pending-tx.ts:32-40 | an event for the hook's key carrying readable text makes every instance of the receiving tab hold that text's list; any other event (another key, a removal, unreadable text) leaves the tab exactly as it was |
| Browser.Write | src/hooks/use-pending-tx.ts:62-67 | a write sets the shared slot and leaves the writing tab alone; an instance elsewhere changes only when the stored value changed to readable text, and then every instance of every other tab holds that list, so a removal of the key changes no instance |
| Browser.NotifyTab | src/hooks/use-pending-tx.ts:42-66 | when the slot is readable every instance of the notified tab holds its list and other tabs are untouched; an absent or unreadable slot leaves the whole origin unchanged |
| Browser.Dispatch | src/hooks/use-pending-tx.ts:62-67 | after a dispatch the slot holds the list and every instance of the writer's tab holds it; other tabs hold it too unless the slot already held it; agreement is preserved |
| Browser.AddAt | src/hooks/use-pending-tx.ts:69-76 | a duplicate id changes nothing at the origin; a fresh one puts the extended list in the slot and in every instance of the tab; agreement is preserved |
| Browser.RemoveAt | src/hooks/use-pending-tx.ts:78-81 | the slot gets a list without the id that is the longest id-free subsequence of the caller's list (every other booking, repeated copies included, in original order), and the whole tab adopts it; agreement is preserved |
| Browser.ClearAt | src/hooks/use-pending-tx.ts:83-86 | the slot ends absent and the tab's instances empty; every instance in every tab is empty unless the slot already held the empty list; agreement is preserved |
| Browser.MountAt | src/hooks/use-pending-tx.ts:17-28 | a newly mounted instance holds what a fresh load of the slot gives; agreement is preserved |
| Browser.UnmountAt | src/hooks/use-pending-tx.ts:56-59 | removing an instance and its listeners preserves agreement |
| Browser.Apply | src/hooks/use-pending-tx.ts:17-94 | every operation at the origin preserves agreement between all instances and the slot |
| Browser.RunKeepsSynced | src/hooks/use-pending-tx.ts:30-86 | once all instances agree with the slot, any sequence of operations keeps them agreeing |
| Browser.AllInstancesAgree | src/hooks/use-pending-tx.ts:17-94 | starting with no page open and any slot content, every instance in every tab always shows the same list, which is what loading the slot gives |
| Browser.AddReachesOtherTabs | src/hooks/use-pending-tx.ts:30-76 | with all instances in agreement, a booking added in one tab is listed by every instance of every tab |

## Left out

- React machinery (`useState`, `useEffect`, re-render timing, stale closures): each instance's list is taken to be the current state value when an operation runs.
- `JSON.parse` and `JSON.stringify`: the slot is abstracted to `Valid(list)` or `Corrupt`, and writing a list is taken to store exactly that list. No serialisation round-trip is claimed, and number formatting is not modelled.
- Well-formed JSON of another shape (for example `null` or an object) in the slot or in an event: the code adopts it as the state, and a list of bookings cannot represent that.
- `console.error` logging: the logging calls on the error paths have no effect on state.
- The `typeof window === 'undefined'` guard is modelled only as the `hasWindow` flag of `InitialLoad`, which gives the empty list.
- Listener registration by event name (`stackstay_pending_bookings_updated`): the custom event is only ever dispatched under that name, so the model delivers it directly.
- Delivery timing across tabs: `storage` events are applied as soon as the write happens. Races between tabs writing concurrently (last writer wins) are not represented.
- Failures to access `localStorage`: `getItem` (lines 21 and 43), `setItem` (line 63) and `removeItem` (line 85) can throw, for example a `SecurityError` when storage is blocked or a quota error on write. The hook catches none of them: `getItem` at line 21 sits outside the `try`, so the initial render throws rather than falling back to the empty list. The model's storage calls always succeed, and `InitialLoad` always returns a list.
- Browser.AddReachesOtherTabs: assumes all instances already agree, because the platform fires no `storage` event when the slot already holds the new text, so a tab that disagreed beforehand is not updated.
