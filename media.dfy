/** Local media: the tracks of the captured camera/microphone stream. A track
    is an object: the streams handed to calls share the very same track
    objects, so enabling or disabling one affects every call that carries it. */
module Media {
  import opened Records

  datatype TrackKind = Audio | Video

  class Track {
    const kind: TrackKind
    var enabled: bool

    constructor (kind: TrackKind)
      ensures this.kind == kind && enabled
    {
      this.kind := kind;
      enabled := true;
    }
  }

  /** `getAudioTracks()[0]` / `getVideoTracks()[0]`: the first track of the
      given kind, or None when the stream has no track of that kind. */
  function FirstOfKind(tracks: seq<Track>, kind: TrackKind): (r: Option<Track>)
    ensures r.None? <==> forall i :: 0 <= i < |tracks| ==> tracks[i].kind != kind
    ensures r.Some? ==> exists i :: 0 <= i < |tracks| && tracks[i] == r.value && tracks[i].kind == kind
                          && forall j :: 0 <= j < i ==> tracks[j].kind != kind
  {
    if tracks == [] then None
    else if tracks[0].kind == kind then Some(tracks[0])
    else
      var r := FirstOfKind(tracks[1..], kind);
      assert forall i :: 1 <= i < |tracks| ==> tracks[i] == tracks[1..][i - 1];
      if r.Some? then
        ghost var i :| 0 <= i < |tracks[1..]| && tracks[1..][i] == r.value && tracks[1..][i].kind == kind
                        && forall j :: 0 <= j < i ==> tracks[1..][j].kind != kind;
        assert tracks[i + 1] == r.value;
        r
      else r
  }
}
