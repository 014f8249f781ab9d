/**
 * The player's track record and repeat mode, shared by the session file,
 * the player store and the playlist form. Properties the code below never
 * inspects one by one are kept together in `fields`, by name.
 */
module PlayerTypes {
  import opened Wrappers
  import opened Numbers

  /** `RepeatModeType`: `"off"`, `"track"` or `"queue"`. */
  datatype RepeatModeType = RepeatOff | RepeatTrack | RepeatQueue

  /**
   * A `Track`. An absent `isFavorite` reads as `false` (the code only ever
   * negates it); `fields` holds every other property by name, with its
   * JSON text.
   */
  datatype Track = Track(
    id: string,
    title: string,
    artist: Option<string>,
    album: Option<string>,
    duration: Number,
    uri: string,
    image: Option<string>,
    isFavorite: bool,
    lastPlayedAt: Option<real>,
    fields: map<string, string>)

  /** `tracks.findIndex((t) => t.id === id)`: the first index with that id, or -1. */
  function FindIndex(tracks: seq<Track>, id: string): (r: int)
    ensures -1 <= r < |tracks|
    ensures r == -1 <==> forall i :: 0 <= i < |tracks| ==> tracks[i].id != id
    ensures r >= 0 ==> tracks[r].id == id && forall i :: 0 <= i < r ==> tracks[i].id != id
  {
    if tracks == [] then -1
    else if tracks[0].id == id then 0
    else
      var k := FindIndex(tracks[1..], id);
      assert forall i :: 1 <= i < |tracks| ==> tracks[i] == tracks[1..][i - 1];
      if k == -1 then -1 else k + 1
  }
}
