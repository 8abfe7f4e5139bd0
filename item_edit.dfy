/**
 * The edit screen's draft state machine (app/ ItemEditViewModel.kt): a draft
 * hydrated from the stored row, full-row overwrites, and the
 * write-then-reload that follows an attachment append.
 */
module ItemEdit {
  import opened Text
  import opened Items
  import opened Repository
  import opened ItemEntry

  /** The edit screen's own rule: only title and description must not be blank. */
  predicate ValidateEditInput(d: ItemDetails): (b: bool)
    ensures ValidateInput(d) ==> b
    ensures b ==> |d.title| > 0 && |d.descripcion| > 0
  {
    IsNotBlank(d.title) && IsNotBlank(d.descripcion)
  }

  /** The state `getItemStream(itemId).filterNotNull().first().toItemUiState(true)`
      produces: the stored row as a draft, flagged valid whatever its fields
      hold.  While the row is absent the read does not complete and the state
      stays `current`; its completing once the row appears is not modelled. */
  function Hydrated(rows: map<int, Item>, itemId: int, current: ItemUiState): (s: ItemUiState)
    ensures itemId in rows ==> s.isEntryValid && ToItem(s.itemDetails) == rows[itemId]
    ensures itemId in rows ==> s.itemDetails.fileUris == []
    ensures itemId !in rows ==> s == current
  {
    if itemId in rows then ToItemUiState(rows[itemId], true) else current
  }

  /** After a write of `ToItem(u)` over the row `itemId`, the reload shows `u`
      itself, flagged valid, except that its file URIs are gone. */
  lemma ReloadShowsWrittenDraft(rows: map<int, Item>, itemId: int, u: ItemDetails, current: ItemUiState)
    requires itemId in rows && u.id == itemId
    ensures Hydrated(Updated(rows, u.id, ToItem(u)), itemId, current) == ItemUiState(u.(fileUris := []), true)
  {
    DraftRoundTrip(u);
  }

  class ItemEditViewModel {
    const itemsRepository: Store<Item>
    const itemId: int
    var itemUiState: ItemUiState

    /** Construction together with the `init` block: the draft is hydrated from
        the row `itemId`, or stays the empty default while there is none. */
    constructor (itemId: int, itemsRepository: Store<Item>)
      ensures this.itemId == itemId && this.itemsRepository == itemsRepository
      ensures itemUiState == Hydrated(itemsRepository.rows, itemId, DefaultItemUiState)
    {
      this.itemId := itemId;
      this.itemsRepository := itemsRepository;
      itemUiState := DefaultItemUiState;
      new;
      ReloadItem();
    }

    /** `updateItem()`: overwrites the row with the whole draft when the draft
        passes the edit rule; the UI state is not touched. */
    method UpdateItem()
      requires IsItemTable(itemsRepository)
      modifies itemsRepository`rows
      ensures IsItemTable(itemsRepository)
      ensures var d := itemUiState.itemDetails;
        itemsRepository.rows == if ValidateEditInput(d) then Updated(old(itemsRepository.rows), d.id, ToItem(d))
                                else old(itemsRepository.rows)
    {
      if ValidateEditInput(itemUiState.itemDetails) {
        itemsRepository.Update(ToItem(itemUiState.itemDetails));
      }
    }

    /** `updateItem(uri, type)`: appends `uri` to the list `type` selects; when
        the result passes the edit rule, writes it and reloads the draft from
        the row, otherwise changes nothing.  Its `when` has no FILE branch. */
    method UpdateItemWithUri(uri: string, contentType: ContentType)
      requires contentType != File
      requires IsItemTable(itemsRepository)
      modifies this`itemUiState, itemsRepository`rows
      ensures IsItemTable(itemsRepository)
      ensures var u := AppendUri(old(itemUiState.itemDetails), uri, contentType);
        if ValidateEditInput(u) then
          itemsRepository.rows == Updated(old(itemsRepository.rows), u.id, ToItem(u))
          && itemUiState == Hydrated(itemsRepository.rows, itemId, old(itemUiState))
        else
          itemsRepository.rows == old(itemsRepository.rows) && itemUiState == old(itemUiState)
    {
      var d := itemUiState.itemDetails;
      var updatedDetails;
      match contentType {
        case Photo => updatedDetails := d.(photoUris := d.photoUris + [uri]);
        case Video => updatedDetails := d.(videoUris := d.videoUris + [uri]);
        case Audio => updatedDetails := d.(audioUris := d.audioUris + [uri]);
      }
      if ValidateEditInput(updatedDetails) {
        itemsRepository.Update(ToItem(updatedDetails));
        ReloadItem();
      }
    }

    /** `reloadItem`: the draft becomes the stored row `itemId`, flagged valid. */
    method ReloadItem()
      modifies this`itemUiState
      ensures itemUiState == Hydrated(itemsRepository.rows, itemId, old(itemUiState))
    {
      var row := itemsRepository.Get(itemId);
      if row.Some? {
        itemUiState := ToItemUiState(row.value, true);
      }
    }

    /** `updateUiState`: the draft becomes `itemDetails`, flagged by the edit rule. */
    method UpdateUiState(itemDetails: ItemDetails)
      modifies this`itemUiState
      ensures itemUiState == ItemUiState(itemDetails, ValidateEditInput(itemDetails))
    {
      itemUiState := ItemUiState(itemDetails, ValidateEditInput(itemDetails));
    }
  }
}
