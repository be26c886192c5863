/** Records shared by the meeting page, the dashboard and the room directory:
    participant rows, room rows, signed-in users and the abstract handles
    (calls, streams, playback elements) that the transport and the browser
    hand out. */
module Records {

  datatype Option<+T> = None | Some(value: T)

  /** A call object handed out by the peer-to-peer transport. */
  type CallId = nat

  /** A remote media stream delivered by the transport. */
  type StreamId = nat

  /** A mounted <video> or <audio> element. */
  type ElementId = nat

  /** One row of the `room_participants` table; `peerId` is optional because
      a row may exist before the participant's transport address is known. */
  datatype Participant = Participant(
    roomCode: string,
    userId: string,
    displayName: string,
    avatarUrl: string,
    isMuted: bool,
    videoOn: bool,
    isHost: bool,
    peerId: Option<string>)

  /** One row of the `rooms` table. */
  datatype RoomRecord = RoomRecord(code: string, createdBy: string)

  /** The signed-in user as the identity provider reports it; the two
      metadata entries are None when the metadata (or the entry) is absent. */
  datatype User = User(id: string, fullName: Option<string>, picture: Option<string>)

  /** The outcome of a `.single()` directory lookup: the row, if any, and
      whether the query reported an error. */
  datatype Lookup<T> = Lookup(data: Option<T>, failed: bool)
  {
    /** The branch `!data || error` (or `error || !data`) of the callers. */
    predicate Missing() { data.None? || failed }
  }
}
