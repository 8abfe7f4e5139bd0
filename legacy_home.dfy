/**
 * The home screen's view model (src/ HomeViewModel.kt): the list state that
 * mirrors the table, and the "new recording" shortcut.
 */
module LegacyHome {
  import opened Wrappers
  import opened Repository
  import opened LegacyItem

  datatype HomeUiState = HomeUiState(itemList: seq<Item>)

  /** The row `addNewRecording(audioFilePath)` builds, before the store gives it a key. */
  function RecordingItem(audioFilePath: string, now: string): (r: Item)
    ensures r.id == 0 && r.title == "Recording" && r.descripcion == "Audio recording"
    ensures r.isTask && !r.status && r.date == now
    ensures r.audioUri == Some(audioFilePath) && r.photoUri == None && r.videoUri == None
  {
    NewItem("Recording", "Audio recording", true, false, now).(audioUri := Some(audioFilePath))
  }

  class HomeViewModel {
    const itemsRepository: Store<Item>
    var homeUiState: HomeUiState

    /** `stateIn(..., initialValue = HomeUiState())`: nothing to show yet. */
    constructor (itemsRepository: Store<Item>)
      ensures this.itemsRepository == itemsRepository && homeUiState.itemList == []
    {
      this.itemsRepository := itemsRepository;
      homeUiState := HomeUiState([]);
    }

    /** One snapshot of `getAllItemsStream()` passed through `map { HomeUiState(it) }`. */
    method OnItemsEmitted(items: seq<Item>)
      modifies this`homeUiState
      ensures homeUiState.itemList == items
    {
      homeUiState := HomeUiState(items);
    }

    /** `addNewRecording`: exactly one new row, under a fresh positive key,
        holding an unfinished "Recording" task with the audio file attached and
        the current date (`now`). */
    method AddNewRecording(audioFilePath: string, now: string)
      requires IsItemTable(itemsRepository)
      modifies itemsRepository
      ensures IsItemTable(itemsRepository)
      ensures var id := itemsRepository.lastId;
        id > 0 && id !in old(itemsRepository.rows)
        && itemsRepository.rows == old(itemsRepository.rows)[id :=
             Item(id, "Recording", "Audio recording", true, false, now, None, None, Some(audioFilePath))]
    {
      var newItem := RecordingItem(audioFilePath, now);
      var _ := itemsRepository.Insert(newItem);
    }
  }
}
