/**
 * The entry screen's draft state machine (app/ ItemEntryViewModel.kt): the
 * draft `ItemDetails`, its validity flag, the attachment lists it collects,
 * and the conversions between a draft and a stored `Item`.
 */
module ItemEntry {
  import opened Text
  import opened Items
  import opened Repository

  datatype ContentType = Photo | Video | Audio | File

  datatype ItemDetails = ItemDetails(
    id: int,
    title: string,
    isTask: bool,
    status: bool,
    descripcion: string,
    date: string,
    photoUris: seq<string>,
    videoUris: seq<string>,
    audioUris: seq<string>,
    fileUris: seq<string>)

  datatype ItemUiState = ItemUiState(itemDetails: ItemDetails, isEntryValid: bool)

  /** The Kotlin default arguments of `ItemDetails()` and `ItemUiState()`. */
  const DefaultItemDetails := ItemDetails(0, "", true, false, "", "", [], [], [], [])
  const DefaultItemUiState := ItemUiState(DefaultItemDetails, false)

  /** The attachment list of a draft that a content type selects. */
  function Uris(d: ItemDetails, t: ContentType): seq<string> {
    match t
    case Photo => d.photoUris
    case Video => d.videoUris
    case Audio => d.audioUris
    case File => d.fileUris
  }

  /** The draft with `uri` added to the list `t` selects (the `copy` in `addUri`). */
  function AppendUri(d: ItemDetails, uri: string, t: ContentType): (r: ItemDetails)
    ensures Uris(r, t) == Uris(d, t) + [uri]
    ensures forall t' | t' != t :: Uris(r, t') == Uris(d, t')
    ensures r.id == d.id && r.title == d.title && r.isTask == d.isTask && r.status == d.status
    ensures r.descripcion == d.descripcion && r.date == d.date
  {
    match t
    case Photo => d.(photoUris := d.photoUris + [uri])
    case Video => d.(videoUris := d.videoUris + [uri])
    case Audio => d.(audioUris := d.audioUris + [uri])
    case File => d.(fileUris := d.fileUris + [uri])
  }

  predicate ValidateUri(uri: string): (b: bool)
    ensures b <==> exists i :: 0 <= i < |uri| && !IsWhitespace(uri[i])
  {
    IsNotBlank(uri)
  }

  /** Title, description and date are not blank, and neither is any photo,
      video or audio URI; the file URIs are not looked at. */
  predicate ValidateInput(d: ItemDetails): (b: bool)
    ensures b ==> |d.title| > 0 && |d.descripcion| > 0 && |d.date| > 0
    ensures b ==> forall u <- d.photoUris + d.videoUris + d.audioUris :: |u| > 0
  {
    && IsNotBlank(d.title)
    && IsNotBlank(d.descripcion)
    && IsNotBlank(d.date)
    && (forall u <- d.photoUris :: ValidateUri(u))
    && (forall u <- d.videoUris :: ValidateUri(u))
    && (forall u <- d.audioUris :: ValidateUri(u))
  }

  /** `ItemDetails.toItem()`: every stored field is the draft's own; only the
      file URIs, which the table has no column for, are left behind. */
  function ToItem(d: ItemDetails): (r: Item)
    ensures r.id == d.id && r.title == d.title && r.descripcion == d.descripcion && r.date == d.date
    ensures r.isTask == d.isTask && r.status == d.status
    ensures r.photoUris == d.photoUris && r.videoUris == d.videoUris && r.audioUris == d.audioUris
  {
    Item(d.id, d.title, d.descripcion, d.isTask, d.status, d.date, d.photoUris, d.videoUris, d.audioUris)
  }

  /** `Item.toItemDetails()`: a stored item read back into a draft, which
      converts back to the same item. */
  function ToItemDetails(item: Item): (d: ItemDetails)
    ensures ToItem(d) == item
    ensures d.fileUris == []
  {
    ItemDetails(item.id, item.title, item.isTask, item.status, item.descripcion, item.date,
                item.photoUris, item.videoUris, item.audioUris, [])
  }

  function ToItemUiState(item: Item, isEntryValid: bool): (s: ItemUiState)
    ensures ToItem(s.itemDetails) == item && s.isEntryValid == isEntryValid
  {
    ItemUiState(ToItemDetails(item), isEntryValid)
  }

  /** A draft survives the trip through the table except for its file URIs,
      which the table has no column for. */
  lemma DraftRoundTrip(d: ItemDetails)
    ensures ToItemDetails(ToItem(d)) == d.(fileUris := [])
  {
  }

  /** Validity does not depend on the file URIs. */
  lemma ValidateInputIgnoresFileUris(d: ItemDetails, fileUris: seq<string>)
    ensures ValidateInput(d.(fileUris := fileUris)) == ValidateInput(d)
  {
  }

  /** Appending to a valid draft keeps it valid exactly when the URI is not
      blank or goes to the file list; a blank photo, video or audio URI makes
      it invalid (while `addUri` leaves the flag as it was). */
  lemma AppendUriValidity(d: ItemDetails, uri: string, t: ContentType)
    requires ValidateInput(d)
    ensures ValidateInput(AppendUri(d, uri, t)) <==> (t == File || ValidateUri(uri))
  {
    var r := AppendUri(d, uri, t);
    if t != File && !ValidateUri(uri) {
      assert uri == Uris(r, t)[|Uris(r, t)| - 1];
    }
  }

  class ItemEntryViewModel {
    const itemsRepository: Store<Item>
    var itemUiState: ItemUiState

    /** The view model starts from an empty draft that is not valid. */
    constructor (itemsRepository: Store<Item>)
      ensures this.itemsRepository == itemsRepository
      ensures itemUiState == DefaultItemUiState && !ValidateInput(itemUiState.itemDetails)
    {
      this.itemsRepository := itemsRepository;
      itemUiState := DefaultItemUiState;
    }

    /** `updateUiState`: the draft becomes `itemDetails` and the flag its validity. */
    method UpdateUiState(itemDetails: ItemDetails)
      modifies this`itemUiState
      ensures itemUiState.itemDetails == itemDetails
      ensures itemUiState.isEntryValid <==> ValidateInput(itemDetails)
    {
      itemUiState := itemUiState.(itemDetails := itemDetails, isEntryValid := ValidateInput(itemDetails));
    }

    /** `addUri`: appends to the selected list; the flag is not recomputed. */
    method AddUri(uri: string, contentType: ContentType)
      modifies this`itemUiState
      ensures itemUiState.itemDetails == AppendUri(old(itemUiState.itemDetails), uri, contentType)
      ensures itemUiState.isEntryValid == old(itemUiState.isEntryValid)
    {
      var d := itemUiState.itemDetails;
      match contentType {
        case Photo =>
          itemUiState := itemUiState.(itemDetails := d.(photoUris := d.photoUris + [uri]));
        case Video =>
          itemUiState := itemUiState.(itemDetails := d.(videoUris := d.videoUris + [uri]));
        case Audio =>
          itemUiState := itemUiState.(itemDetails := d.(audioUris := d.audioUris + [uri]));
        case File =>
          itemUiState := itemUiState.(itemDetails := d.(fileUris := d.fileUris + [uri]));
      }
    }

    /** `saveItem`: inserts the draft as an item when the flag says it is
        valid, and does nothing otherwise; the draft is left as it is. */
    method SaveItem()
      requires IsItemTable(itemsRepository)
      modifies itemsRepository
      ensures IsItemTable(itemsRepository)
      ensures itemUiState.isEntryValid ==>
        itemsRepository.Inserted(old(itemsRepository.rows), old(itemsRepository.lastId), ToItem(itemUiState.itemDetails))
      ensures !itemUiState.isEntryValid ==>
        itemsRepository.rows == old(itemsRepository.rows) && itemsRepository.lastId == old(itemsRepository.lastId)
    {
      if itemUiState.isEntryValid {
        var _ := itemsRepository.Insert(ToItem(itemUiState.itemDetails));
      }
    }
  }
}
