# Notes/tasks app: draft state machines, search filter and reminder ledger

This project models the statable core of a small Android notes/tasks app in Dafny.

- **Item drafts.** The entry and edit screens each hold a draft `ItemDetails` and an `isEntryValid` flag. The entry view model collects attachment URIs and inserts the draft when its `isEntryValid` flag is set. Adding a URI does not recompute that flag. The edit view model hydrates the draft from the stored row, overwrites the whole row, and reloads the draft after an attachment append. An older single-URI variant normalises the date on save. Conversions between drafts and stored `Item`s come with round-trip lemmas.
- **Item table.** The store is a map from primary key to row (`Repository.Store`). It supports insert (a fresh key for id 0), update and get.
- **Home search filter.** The item list is filtered by a case-insensitive substring match on the title.
- **Reminder ledger.** `setAlarm` writes `title -> millis` into the "alarms" preferences file and registers a broadcast under `title.hashCode()`. `cancelAlarm(id)` removes the registration `id` and the ledger key `id.toString()`. The boot receiver replays the ledger. The details screen reads one title's entry back. `String.hashCode` and `Int.toString` are modelled exactly, and so is `toLongOrNull` on ASCII digits. So the mismatch between the keys that schedule and cancel use becomes a provable property.

Layout: one module per source file. `Text` and `Jvm` give the Kotlin/Java library semantics the core depends on. `Wrappers` holds `Option`.

State that the source changes in place is a class: view models, the store, the Context with its ledger and alarm registrations, and the form's `alarms` list. The state methods are proved against pure functions (`AppendUri`, `Hydrated`, `Updated`, `LedgerAfterSet`, `LedgerAfterCancel`, `ReplayInOrder`, `Replayed`), and the lemmas are stated over those functions. Each command is one atomic step. The Kotlin field `type` is a Dafny keyword, so it is named `isTask` here (true means task). Data classes become datatypes, so equality is structural over all fields, as in Kotlin.

## Model

| member | source | states |
|---|---|---|
| ItemEntry.ItemEntryViewModel.constructor | app/src/main/java/com/example/inventory/ui/item/ItemEntryViewModel.kt:114-133 | Starts from the default draft: id 0, empty strings, type task, unfinished, empty lists. The flag is false, and the draft is indeed not valid. |
| ItemEntry.ItemEntryViewModel.UpdateUiState | app/src/main/java/com/example/inventory/ui/item/ItemEntryViewModel.kt:26-33 | Stores exactly the given draft. The flag holds iff the draft passes `ValidateInput`. |
| ItemEntry.AppendUri | app/src/main/java/com/example/inventory/ui/item/ItemEntryViewModel.kt:39-71 | The list that the content type selects gets the URI as its last element, after its old elements in order. Every other list and every scalar field is unchanged. |
| ItemEntry.ItemEntryViewModel.AddUri | app/src/main/java/com/example/inventory/ui/item/ItemEntryViewModel.kt:39-71 | The draft becomes `AppendUri` of the old draft. The validity flag keeps its old value. |
| ItemEntry.ItemEntryViewModel.SaveItem | app/src/main/java/com/example/inventory/ui/item/ItemEntryViewModel.kt:80-86 | If the flag is set, the store gets exactly `ToItem(draft)` inserted. Otherwise the store is unchanged. The draft is never modified. |
| ItemEntry.AppendUriValidity | app/src/main/java/com/example/inventory/ui/item/ItemEntryViewModel.kt:91-108 | Appending to a valid draft keeps it valid iff the URI is not blank or goes to the file list. A blank photo, video or audio URI makes the draft invalid. |
| ItemEntry.ValidateInput | app/src/main/java/com/example/inventory/ui/item/ItemEntryViewModel.kt:91-100 | A valid draft has a non-empty title, description and date, and no empty photo, video or audio URI. |
| ItemEntry.ValidateUri | app/src/main/java/com/example/inventory/ui/item/ItemEntryViewModel.kt:105-108 | A URI is valid iff it holds a character that is not whitespace. |
| ItemEntry.ValidateInputIgnoresFileUris | app/src/main/java/com/example/inventory/ui/item/ItemEntryViewModel.kt:91-100 | Validity never depends on `fileUris`. |
| ItemEntry.ToItemDetails | app/src/main/java/com/example/inventory/ui/item/ItemEntryViewModel.kt:161-171 | Round trip: `ToItem(ToItemDetails(item)) == item` for every item. The draft has no file URIs. |
| ItemEntry.ToItem | app/src/main/java/com/example/inventory/ui/item/ItemEntryViewModel.kt:138-148 | Each column of the row is the draft's field of the same name, and the attachment lists are kept in order. The file URIs have no column. |
| ItemEntry.DraftRoundTrip | app/src/main/java/com/example/inventory/ui/item/ItemEntryViewModel.kt:138-148 | `ToItemDetails(ToItem(d))` is `d` with `fileUris` emptied. The table drops them. |
| ItemEntry.ToItemUiState | app/src/main/java/com/example/inventory/ui/item/ItemEntryViewModel.kt:153-156 | The state holds the item as a draft, converting back to the same item, with the given flag. |
| ItemEdit.Hydrated | app/src/main/java/com/example/inventory/ui/item/ItemEditViewModel.kt:82-87 | If the row exists, the state is that row as a draft, flagged valid whatever its fields hold, with no file URIs. While the row is absent the read does not complete, and the state is unchanged. The read completing later, once the row appears, is concurrency and is left out. |
| ItemEdit.ItemEditViewModel.constructor | app/src/main/java/com/example/inventory/ui/item/ItemEditViewModel.kt:51-57 | Construction and the `init` block leave the state hydrated from the row `itemId`, with the flag forced true. |
| ItemEdit.ItemEditViewModel.ReloadItem | app/src/main/java/com/example/inventory/ui/item/ItemEditViewModel.kt:82-87 | The state becomes `Hydrated` from the current table. |
| ItemEdit.ItemEditViewModel.UpdateItem | app/src/main/java/com/example/inventory/ui/item/ItemEditViewModel.kt:63-67 | If title and description are not blank, the row with the draft's id is overwritten with the full draft. Otherwise the table is unchanged. The UI state is never touched. |
| ItemEdit.ItemEditViewModel.UpdateItemWithUri | app/src/main/java/com/example/inventory/ui/item/ItemEditViewModel.kt:69-80 | Requires a content type other than FILE. If the appended draft passes the edit rule, the row is overwritten with it and the state is reloaded from the table. Otherwise neither the table nor the state changes. |
| ItemEdit.ReloadShowsWrittenDraft | app/src/main/java/com/example/inventory/ui/item/ItemEditViewModel.kt:76-78 | When the draft's id is `itemId` and that row exists, the state after the write and reload is the appended draft, flagged valid, with its file URIs dropped. |
| ItemEdit.ValidateEditInput | app/src/main/java/com/example/inventory/ui/item/ItemEditViewModel.kt:93-97 | The edit rule accepts every draft the entry rule accepts. A draft it accepts has a non-empty title and description. |
| ItemEdit.ItemEditViewModel.UpdateUiState | app/src/main/java/com/example/inventory/ui/item/ItemEditViewModel.kt:89-97 | The state becomes the draft, flagged by "title and description not blank". Date and URIs are ignored. |
| LegacyItemEntry.ItemEntryViewModel.constructor | src/main/java/com/example/inventory/ui/item/ItemEntryViewModel.kt:18 | Starts from the default draft with the flag false. The flag describes the draft, and every later update keeps it that way. |
| LegacyItemEntry.ItemEntryViewModel.UpdateUiState | src/main/java/com/example/inventory/ui/item/ItemEntryViewModel.kt:22-25 | Stores the draft, flagged iff title and description are not blank. |
| LegacyItemEntry.ValidateInput | src/main/java/com/example/inventory/ui/item/ItemEntryViewModel.kt:67-71 | Valid iff the title and the description each hold a character that is not whitespace. |
| LegacyItemEntry.ItemEntryViewModel.SaveItem | src/main/java/com/example/inventory/ui/item/ItemEntryViewModel.kt:28-42 | The current draft is validated again. If it passes, the store gets `ToItem(draft)` with only the date replaced by `SavedDate`. Otherwise nothing is inserted. The UI state is not modified. |
| LegacyItemEntry.SavedDate | src/main/java/com/example/inventory/ui/item/ItemEntryViewModel.kt:31-35 | A blank date becomes the current date. Otherwise the result is either the reformatted parse of the date, whenever there is one, or the current date. |
| LegacyItemEntry.ValidateAndFormatDate | src/main/java/com/example/inventory/ui/item/ItemEntryViewModel.kt:53-64 | The parse, formatted again, when it succeeds. The current date when the parse throws or returns null. |
| LegacyItemEntry.ToItemDetails | src/main/java/com/example/inventory/ui/item/ItemEntryViewModel.kt:110-120 | Round trip: `ToItem(ToItemDetails(item)) == item`. |
| LegacyItemEntry.ToItem | src/main/java/com/example/inventory/ui/item/ItemEntryViewModel.kt:93-103 | Each column of the row is the draft's field of the same name, the optional URIs included. |
| LegacyItemEntry.DraftRoundTrip | src/main/java/com/example/inventory/ui/item/ItemEntryViewModel.kt:93-103 | Round trip: `ToItemDetails(ToItem(d)) == d` exactly. |
| LegacyItemEntry.ToItemUiState | src/main/java/com/example/inventory/ui/item/ItemEntryViewModel.kt:105-108 | The state holds the item as a draft, converting back to the same item, with the given flag. |
| LegacyItem.NewItem | src/main/java/com/example/inventory/data/Item.kt:30-41 | Construction with the declared defaults: id 0 (not yet stored) and no photo, video or audio URI. The given fields are kept. |
| Repository.Store.Insert | src/main/java/com/example/inventory/data/Item.kt:31-32 | An item with id 0 gets a key that is positive and was never used. An item with an explicit key is stored under it unless that key is taken. The table stays well formed: every key is non-zero and is its row's id. |
| Repository.Store.Update | app/src/main/java/com/example/inventory/ui/item/ItemEditViewModel.kt:65 | The row with the item's key is overwritten with the whole item. Nothing changes if there is no such row. |
| Repository.Updated | app/src/main/java/com/example/inventory/ui/item/ItemEditViewModel.kt:77 | The keys stay the same. The row `id` becomes the new row if present. All other rows are kept. |
| Repository.Store.Get | app/src/main/java/com/example/inventory/ui/item/ItemEditViewModel.kt:83-86 | Returns the row for the key, or nothing iff the key is absent. |
| LegacyHome.HomeViewModel.constructor | src/main/java/com/example/inventory/ui/home/HomeViewModel.kt:17-23 | The initial `homeUiState` has an empty item list. |
| LegacyHome.HomeViewModel.OnItemsEmitted | src/main/java/com/example/inventory/ui/home/HomeViewModel.kt:18 | A snapshot becomes the item list unchanged: same elements, same order. |
| LegacyHome.RecordingItem | src/main/java/com/example/inventory/ui/home/HomeViewModel.kt:28-36 | The new row has no key yet. It is titled "Recording" with description "Audio recording", is an unfinished task, has the current date and the audio path, and has no photo or video. |
| LegacyHome.HomeViewModel.AddNewRecording | src/main/java/com/example/inventory/ui/home/HomeViewModel.kt:26-38 | Exactly one row is added, under a fresh positive key. It is titled "Recording" with description "Audio recording", is an unfinished task, has the current date and the audio path, and has no photo or video. |
| Home.FilteredItems | app/src/main/java/com/example/inventory/ui/home/HomeScreen.kt:104-108 | An empty query returns the list unchanged. In general the result is an order-preserving subsequence, no longer than the list. An item is in it iff it is in the list and the query is empty or the item's title contains the query ignoring case. Each item it keeps appears as often as in the list. |
| Home.TitleFilter | app/src/main/java/com/example/inventory/ui/home/HomeScreen.kt:107 | An order-preserving subsequence of the list. Each item whose title contains the query appears as often as in the list, and no other item appears. |
| Home.EmptyQueryKeepsAll | app/src/main/java/com/example/inventory/ui/home/HomeScreen.kt:104-107 | Filtering by "" would keep every item, so the empty-query branch is only a shortcut. |
| Text.IsWhitespace | app/src/main/java/com/example/inventory/ui/item/ItemEntryViewModel.kt:107 | Kotlin's `Char.isWhitespace()` on the JVM: space, tab, newline and carriage return are whitespace. No visible ASCII character is. Every whitespace character is at most U+3000. |
| Text.IsNotBlank | app/src/main/java/com/example/inventory/ui/item/ItemEntryViewModel.kt:93-95 | `isNotBlank()` holds iff some character is not whitespace, so the string is not empty. |
| Text.IsBlank | src/main/java/com/example/inventory/ui/item/ItemEntryViewModel.kt:31 | `isBlank()`: the empty string and an all-space string are blank. A blank string holds no visible ASCII character. |
| Text.ContainsIgnoreCase | app/src/main/java/com/example/inventory/ui/home/HomeScreen.kt:107 | True iff the query matches at some offset of the title, comparing characters as Kotlin's ignore-case `Char.equals` does. |
| Text.IndexOfIgnoreCase | app/src/main/java/com/example/inventory/ui/home/HomeScreen.kt:107 | The first matching offset at or after `from`, or -1 iff no offset up to the title's length matches. |
| Alarms.SetAlarm | app/src/main/java/com/example/inventory/ui/item/ItemEntryScreen.kt:936-960 | Registers `(millis, title)` under `title.hashCode()`, replacing any registration with that code. Sets the ledger's `title` to the Long value, overwriting it, and leaves every other key unchanged. Registrations stay well keyed: each sits under its own title's hash code. |
| Alarms.LedgerAfterSet | app/src/main/java/com/example/inventory/ui/item/ItemEntryScreen.kt:955-959 | The title maps to the Long value. The other keys are unchanged. |
| Alarms.CancelAlarm | app/src/main/java/com/example/inventory/ui/item/ItemEntryScreen.kt:1004-1023 | Removes the registration `alarmId` and the ledger key `alarmId.toString()`, and nothing else. Registrations stay well keyed. |
| Alarms.LedgerAfterCancel | app/src/main/java/com/example/inventory/ui/item/ItemEntryScreen.kt:1019-1023 | Only the key that is the decimal string of the id is removed. The other entries are kept. |
| Alarms.CancelKeyMismatch | app/src/main/java/com/example/inventory/ui/item/ItemEntryScreen.kt:1021 | After `setAlarm(t, x)` and then `cancelAlarm(t.hashCode())`, the ledger still maps `t` to `x` iff `t` is not the decimal string of its own hash code. |
| Alarms.CancelKeepsTitleEntry | app/src/main/java/com/example/inventory/ui/item/ItemEntryScreen.kt:1021 | Every title that is not a numeral keeps its ledger entry through set and then cancel. |
| Jvm.IntToString | app/src/main/java/com/example/inventory/ui/item/ItemEntryScreen.kt:1021 | `alarmId.toString()` is never empty, and starts with a minus sign iff the number is negative. |
| Jvm.IntToStringIsNumeral | app/src/main/java/com/example/inventory/ui/item/ItemEntryScreen.kt:1021 | `Int.toString` always yields an optional minus sign followed by one or more digits, so no numeral is a title with a letter or a space, and neither is `"-"`. |
| Jvm.HashCode | app/src/main/java/com/example/inventory/ui/item/ItemEntryScreen.kt:946 | Java's `String.hashCode` loop over the UTF-16 units in 32-bit arithmetic. The result is a 32-bit int. |
| Jvm.HashCodeClosedForm | app/src/main/java/com/example/inventory/ui/item/ItemEntryScreen.kt:946 | The loop equals the Java SE formula `s[0]*31^(n-1)+...+s[n-1]`, wrapped to 32 bits. |
| Alarms.CancelReminder | app/src/main/java/com/example/inventory/ui/item/ItemEntryScreen.kt:1004-1023 | The corrected cancel: removes the registration under the title's hash code and the ledger key the title itself. Registrations stay well keyed. |
| Alarms.CancelReminderUndoesSet | app/src/main/java/com/example/inventory/ui/item/ItemEntryScreen.kt:1010-1022 | With the corrected cancel, set and then cancel leave the ledger and the registrations as if the title had only been cancelled. |
| Alarms.ItemInputForm.constructor | app/src/main/java/com/example/inventory/ui/item/ItemEntryScreen.kt:707 | The form's alarm list starts empty. |
| Alarms.ItemInputForm.ConfirmAlarm | app/src/main/java/com/example/inventory/ui/item/ItemEntryScreen.kt:864-865 | Confirming the picker sets the alarm for the title and appends `(time, title)` to the list. |
| Alarms.ItemInputForm.DeleteAlarm | app/src/main/java/com/example/inventory/ui/item/ItemEntryScreen.kt:913-914 | Removes exactly the `index`-th pair, keeping the order of the others. Then cancels by that title's hash code. |
| Alarms.ItemInputForm.EditAlarm | app/src/main/java/com/example/inventory/ui/item/ItemEntryScreen.kt:962-1002 | Requires a valid index. Replaces the pair with `(newTime, same title)` and keeps the length and the other pairs. The cancel runs before the set, so the ledger ends with `title -> newTime`. |
| Boot.OnReceive | app/src/main/java/com/example/inventory/ui/item/BootReceiver.kt:11-26 | Nothing happens unless the action is BOOT_COMPLETED. Then the keys are visited in the order `sharedPreferences.all` yields them. `setAlarm(k, v)` is called for every Long entry `(k, v)`, and other value types are skipped, String-encoded numbers included. The result is `ReplayInOrder` of that order, which is one of the outcomes `Replayed` allows. The ledger ends equal to its prior contents, and the registrations stay well keyed. |
| Boot.ReplayEntry | app/src/main/java/com/example/inventory/ui/item/BootReceiver.kt:20-23 | One visit of the `forEach`: a Long entry is registered under its title's hash code, with its time and title. Any other value is skipped and leaves the registrations as they were. |
| Boot.ReplayInOrder | app/src/main/java/com/example/inventory/ui/item/BootReceiver.kt:19-24 | The `forEach` over one iteration order. No registration is removed. Every Long entry visited has its code registered. Each registration either is the one that was there before or is what `setAlarm` registers for some Long entry of the ledger under its code. `ReplayInOrderIsReplayed` and `ReplayInOrderOverrides` give the rest. |
| Boot.ReplayInOrderIsReplayed | app/src/main/java/com/example/inventory/ui/item/BootReceiver.kt:19-23 | Replaying in any one order registers every Long entry's code to an entry of that code and leaves every other registration alone. |
| Boot.ReplayOfLedgerIsReplayed | app/src/main/java/com/example/inventory/ui/item/BootReceiver.kt:11-26 | A replay over any iteration order of the whole ledger is one of the outcomes `Replayed` allows for the whole ledger. |
| Boot.ReplayInOrderOverrides | app/src/main/java/com/example/inventory/ui/item/BootReceiver.kt:19-23 | What a replay registers does not depend on the registrations it starts from: it overrides them with a fixed map. |
| Boot.ReplayStep | app/src/main/java/com/example/inventory/ui/item/BootReceiver.kt:19-23 | Visiting one more entry extends the replay by that entry's `setAlarm` when its value is a Long, and leaves the registrations as they are for any other value. |
| Boot.CodesBound | app/src/main/java/com/example/inventory/ui/item/BootReceiver.kt:23 | There are never more request codes than titles, because hash collisions merge. |
| Boot.ReplayRegistrationBound | app/src/main/java/com/example/inventory/ui/item/BootReceiver.kt:19-23 | Replaying onto an empty alarm manager leaves at most as many registrations as there are Long entries. |
| Boot.ReplayIdempotent | app/src/main/java/com/example/inventory/ui/item/BootReceiver.kt:19-23 | A second replay in the same order changes nothing, even when titles share a hash code: for every code it registers the same last title again. |
| Boot.ScheduledReminderRestored | app/src/main/java/com/example/inventory/ui/item/BootReceiver.kt:19-23 | A reminder scheduled for `T` at `X`, whose code no other Long entry shares, is registered as exactly `(X, T)` after the replay. No other registration carries `T`, provided the registrations were well keyed before. |
| Boot.ReplayKeepsWellKeyed | app/src/main/java/com/example/inventory/ui/item/BootReceiver.kt:19-23 | The replay keeps every registration under its own title's hash code. |
| Boot.DeletedReminderRestored | app/src/main/java/com/example/inventory/ui/item/BootReceiver.kt:19-23 | As written, a deleted reminder with a non-numeral title is registered again at boot, exactly as `(time, title)`, when no other Long entry shares its hash code. |
| Boot.CancelledReminderStaysCancelled | app/src/main/java/com/example/inventory/ui/item/BootReceiver.kt:19-23 | With the corrected cancel, no registration restored at boot carries the cancelled title. This holds from any well-keyed state that schedules the title and then cancels it by title. |
| Details.StoredTime | app/src/main/java/com/example/inventory/ui/item/ItemDetailsScreen.kt:268 | A Long value is returned as it is. A String value is returned iff `toLongOrNull` parses it. Any other type gives nothing. |
| Details.CollectAlarms | app/src/main/java/com/example/inventory/ui/item/ItemDetailsScreen.kt:267-270 | Over distinct ledger keys, the `mapNotNull` yields the title's pair if its key was visited and its time reads, and nothing otherwise. |
| Details.LoadAlarms | app/src/main/java/com/example/inventory/ui/item/ItemDetailsScreen.kt:265-271 | In any iteration order, the result is at most one pair, its title is `itemTitle`, and it is exactly the title's own readable entry. |
| Details.LoadAfterSet | app/src/main/java/com/example/inventory/ui/item/ItemDetailsScreen.kt:265-271 | After `setAlarm(x, t)`, the details screen of `t` lists exactly `(x, t)`. |
| Details.LoadAfterDelete | app/src/main/java/com/example/inventory/ui/item/ItemDetailsScreen.kt:265-271 | As written, a deleted reminder with a non-numeral title is still listed. |
| Details.StringTimeReadBack | app/src/main/java/com/example/inventory/ui/item/ItemDetailsScreen.kt:268 | A time stored as its decimal String is read back as the same number. |
| Jvm.ParseLong | app/src/main/java/com/example/inventory/ui/item/ItemDetailsScreen.kt:268 | Kotlin `toLongOrNull`: a parsed value is always within the Long range and comes from a string containing a digit. |
| Jvm.ParseLongOfToString | app/src/main/java/com/example/inventory/ui/item/ItemDetailsScreen.kt:268 | Round trip: `n.toString().toLongOrNull() == n` for every Long `n`. |

## Left out

- Compose UI, navigation, theming, media capture and playback, permission launchers and FileProvider are rendering or device I/O.
- `AlarmReceiver` is not part of this model. It only builds the notification.
- The clock and `SimpleDateFormat` are parameters. `now` is the current formatted date. `reformat` is parse followed by format, and gives None when parsing fails.
- The Calendar arithmetic of the date and time pickers is left out. The chosen time is a parameter.
- The picker's `onValueChange(itemDetails.copy(date = calendar.time.toString()))` in the entry form is left out. It depends on `Date.toString()`. The update it triggers is `UpdateUiState`, which is modelled.
- Coroutines, `viewModelScope.launch`, StateFlow/`stateIn` timing and the concurrent `updateItem` launches of the edit screen are concurrency. Each command is one atomic step.
- The Room DAO and the repository implementation are not part of this model. The store assumes the conflict strategy IGNORE for an explicit key that is already taken. Delete is not used by the modelled code.
- The live `getAllItemsStream()` query is not derived from `Store.rows`. Each list it emits is a parameter of `LegacyHome.HomeViewModel.OnItemsEmitted`.
- The app's `data/Item.kt` (list-of-URIs schema) is not part of this model. Its fields are those the conversions fill.
- Unicode case mapping (`uppercaseChar`, `lowercaseChar`) is left abstract as the parameters `upper` and `lower`.
- Strings are sequences of Unicode scalar values. An unpaired UTF-16 surrogate cannot be written. `HashCode` hashes the UTF-16 encoding.
- The Long range of stored times is not enforced on `LongV` values. Only `ParseLong` checks it.
- The OS clearing its alarms at reboot and the firing of alarms are left out. The boot replay runs over whatever registrations exist.
- `Jvm.ParseLong`: accepts ASCII digits only. Kotlin's `toLongOrNull` also accepts other Unicode decimal digits through `Character.digit`.
- Boot.OnReceive: the iteration order of `sharedPreferences.all` is a parameter, since it comes from the platform's hash map. With hash collisions it decides which colliding title ends up registered. `Replayed` states what holds in every order.

## Findings

| source | as written | input that shows it | evidently intended | confidence | as-written member | corrected member |
|---|---|---|---|---|---|---|
| app/src/main/java/com/example/inventory/ui/item/ItemEntryScreen.kt:1021 | `cancelAlarm` removes the ledger key `alarmId.toString()`, the decimal hash code. `setAlarm` wrote the key `itemTitle` (line 957). | Schedule "Buy milk", then delete it from the form. The ledger still maps "Buy milk" to its time. The details screen still lists it, and after a reboot the boot receiver registers it again. | The ledger entry is removed under the title, the key `setAlarm` writes. | medium; not executed | `Alarms.CancelAlarm`, `Boot.DeletedReminderRestored` | `Alarms.CancelReminder`, `Boot.CancelledReminderStaysCancelled` |

The form operations (`DeleteAlarm`, `EditAlarm`) still call the as-written `CancelAlarm`, because they model the screen as it is. `CancelReminder` is the corrected operation, and the lemmas about it show what it fixes.
