# echo-meet: room membership and mesh reconciliation

This project models the client-side coordinator of echo-meet, a browser
meeting app in which every participant holds a direct peer-to-peer media call
with every other participant (a full mesh), while a shared `room_participants`
table records who is in each room and each participant's mute/camera state.

Two pages make up the modelled core:

- **The meeting page** (`client/src/pages/MeetingRoom.tsx`). It resolves the
  signed-in user and the room. It captures local media, creates the transport
  endpoint and registers the user's row in the directory. On every roster
  change it rebuilds the whole mesh: it closes every call in its connection
  table, empties the table and places one call per eligible roster entry. It
  answers inbound calls, plays incoming streams on per-participant
  `<video>`/`<audio>` elements, gates audio on the remote participant's
  `is_muted` flag, and handles the mute, video and leave buttons.
- **The dashboard** (`client/src/pages/Dashboard.tsx`). It joins a meeting by
  a typed code: the code is trimmed, looked up, then either reported missing
  or navigated to. It creates a meeting under the first six characters of a
  fresh UUID.

Layout:

- `records.dfy` (`Records`): participant rows, room rows, users, lookup
  outcomes, abstract call/stream/element handles.
- `directory.dfy` (`Directory`): the participant table as a map keyed by
  (room, user), and the effect of the writes the page issues.
- `media.dfy` (`Media`): local tracks as objects with a mutable `enabled` flag.
  Every stream handed to a call shares the same track objects.
- `roster.dfy` (`Roster`): the pure roster questions. These are "whom does the
  rebuild call" and "which participant does an inbound address belong to".
- `meeting_room.dfy` (`MeetingRoomPage`): class `MeetingRoom`. Its fields are
  the page's state and refs, and its methods are the page's handlers.
- `dashboard.dfy` (`DashboardPage`): `trim`, the UUID-derived code, the
  `/meeting/:code` route, and class `Dashboard` with the join/create handlers.

Every outcome of an external call is a method parameter. That covers the
session, the room lookup, `getUserMedia`, the transport address, a roster
fetch, the UUID and an insert error. The page's directory writes are recorded
in the field `writes`, and `Directory.Apply` gives their meaning. Transport
events (a stream arriving, a call closing, an inbound call) are methods that
the environment calls with the call handle.

## Model

| member | source | states |
|---|---|---|
| `Directory.Apply` | client/src/pages/MeetingRoom.tsx:133-142 | An upsert inserts or overwrites the row under (room, user). The toggles' partial updates change an existing row. Leaving deletes the row. An upsert stores exactly the given row. A mute or video update on an existing row sets only that flag. Every other row is untouched, and one row per (room, user) is preserved. |
| `Directory.SetMutedChangesOnlyOwnFlag` | client/src/pages/MeetingRoom.tsx:337-341 | The mute update changes only `is_muted` of the (room, self) row. |
| `Directory.SetVideoOnChangesOnlyOwnFlag` | client/src/pages/MeetingRoom.tsx:355-359 | The video update changes only `video_on` of the (room, self) row. |
| `Directory.UpsertIdempotent` | client/src/pages/MeetingRoom.tsx:133-142 | Registering the same record twice has the effect of registering once. |
| `Directory.SnapshotUsersDistinct` | client/src/pages/MeetingRoom.tsx:38-44 | A fetched roster never lists the same user twice. |
| `Directory.RemovedUserLeavesRoster` | client/src/pages/MeetingRoom.tsx:369-373 | After a user's row is deleted, no fetch of the room lists that user. |
| `Directory.AtMostOneHost` | client/src/pages/MeetingRoom.tsx:138 | While `is_host` holds exactly for the creator's row, a room has at most one host row. |
| `Media.FirstOfKind` | client/src/pages/MeetingRoom.tsx:335 | `getAudioTracks()[0]` (and the video variant) is the first track of that kind. It is absent exactly when the stream has no track of that kind. |
| `Roster.Callees` | client/src/pages/MeetingRoom.tsx:62-63 | The entries the rebuild calls are exactly the roster entries that are not the local user and have a non-empty `peer_id`. |
| `Roster.DesiredPeers` | client/src/pages/MeetingRoom.tsx:62-86 | A peer id is a key of the rebuilt table exactly when some callable roster entry carries it. The empty string never is. |
| `Roster.SelfNeverDesired` | client/src/pages/MeetingRoom.tsx:63 | When peer ids identify users, the local user's own address is never called. |
| `Roster.FindByPeerId` | client/src/pages/MeetingRoom.tsx:153 | `participants.find` by `peer_id` gives the first entry with that peer id. It gives none exactly when no entry has it. |
| `Roster.TwoPartyMesh` | client/src/pages/MeetingRoom.tsx:62-87 | Two participants with distinct users and non-empty addresses each call exactly the other's address. |
| `MeetingRoomPage.Registration` | client/src/pages/MeetingRoom.tsx:133-142 | The upserted row is keyed by (room, user). `is_host` holds iff the user created the room. The row starts unmuted with video on and carries the transport address. The display name is the user's full name, or "Guest" when that is absent or empty. |
| `MeetingRoomPage.RegistrationKeepsSingleHost` | client/src/pages/MeetingRoom.tsx:138 | Joins keep "only the creator is host" true of a room's rows. |
| `MeetingRoomPage.TogglesKeepSingleHost` | client/src/pages/MeetingRoom.tsx:337-341 | Mute/video updates and leaving keep "only the creator is host" true. |
| `MeetingRoomPage.MeetingRoom.constructor` | client/src/pages/MeetingRoom.tsx:21-35 | Initial page state: room undecided, empty roster, unmuted, video on, no stream, no transport, empty tables. |
| `MeetingRoomPage.MeetingRoom.JoinRoom` | client/src/pages/MeetingRoom.tsx:95-130 | No session gives `roomExists = false` and leaves the user id unchanged. Otherwise the user id and the signed-in user are recorded. A missing room or a lookup error gives `roomExists = false`. In both cases there is no capture and no transport. A found room gives `roomExists = true` and records its creator. A delivered capture then becomes the local stream and creates the transport. The method changes only the join's own fields: no roster, mesh, playback or directory write. |
| `MeetingRoomPage.MeetingRoom.FetchParticipants` | client/src/pages/MeetingRoom.tsx:38-44 | Returned data, even an empty list, replaces the roster. No data leaves it unchanged. |
| `MeetingRoomPage.MeetingRoom.GetFreshStream` | client/src/pages/MeetingRoom.tsx:47-55 | The new stream holds exactly the local tracks, in order. It is empty when nothing has been captured. |
| `MeetingRoomPage.MeetingRoom.CloseAllCalls` | client/src/pages/MeetingRoom.tsx:59-60 | Every call in the table is closed, then the table is emptied. |
| `MeetingRoomPage.MeetingRoom.PlaceCall` | client/src/pages/MeetingRoom.tsx:64-86 | A new call carrying the current local tracks is placed to the entry and stored under its peer id. |
| `MeetingRoomPage.MeetingRoom.ConnectTo` | client/src/pages/MeetingRoom.tsx:62-87 | One loop step places a call exactly when the entry is callable and the transport exists. |
| `MeetingRoomPage.MeetingRoom.CallRoster` | client/src/pages/MeetingRoom.tsx:62-88 | On an emptied table, the calls placed are one per callable entry, in roster order. The table's keys are their peer ids. None are placed without a transport. |
| `MeetingRoomPage.MeetingRoom.ReconnectPeers` | client/src/pages/MeetingRoom.tsx:58-89 | All old calls are closed. The new key set is `DesiredPeers(participants, userId)`, or empty without a transport. The new calls are fresh, open, one per callable entry in order, and each is stored under its target's peer id. Session and playback state are unchanged. |
| `MeetingRoomPage.MeetingRoom.OnPeerOpen` | client/src/pages/MeetingRoom.tsx:132-146 | It runs only once a join has created the transport, for the user and room creator that join recorded. It upserts the registration row of that user, with `is_host` taken against that creator. Then the roster is replaced by the fetch's data. Then the mesh is rebuilt against the roster now held: all old calls are closed, one fresh call is placed per callable entry in order, and the key set is `DesiredPeers`. Only the directory writes, the roster and the mesh change. |
| `MeetingRoomPage.MeetingRoom.Play` | client/src/pages/MeetingRoom.tsx:68-79 | The stream is recorded for the user and set on their video element when one is mounted. It is set on their audio element only when they are not muted. |
| `MeetingRoomPage.MeetingRoom.OnOutboundStream` | client/src/pages/MeetingRoom.tsx:67-80 | A stream on an outbound call is played for the call's target. It is never made audible when the target's record said muted. |
| `MeetingRoomPage.MeetingRoom.OnOutboundClose` | client/src/pages/MeetingRoom.tsx:82-84 | Closing an outbound call removes only its target's `remoteStreams` entry. |
| `MeetingRoomPage.MeetingRoom.OnIncomingCall` | client/src/pages/MeetingRoom.tsx:148-177 | It runs only once the transport exists. The call is answered with a fresh copy of the local tracks and stored under the caller's address. A call previously stored there stays open and leaves the table. Only the mesh changes. |
| `MeetingRoomPage.MeetingRoom.OnInboundStream` | client/src/pages/MeetingRoom.tsx:152-170 | A stream from an address no roster entry carries changes nothing. Otherwise it is played for the first matching entry, with audio gated on that entry's `is_muted`. |
| `MeetingRoomPage.MeetingRoom.OnInboundClose` | client/src/pages/MeetingRoom.tsx:172-175 | Closing an inbound call removes the matched participant's stream, or nothing when unmatched. |
| `MeetingRoomPage.MeetingRoom.MountAudio` | client/src/pages/MeetingRoom.tsx:260-262 | A mounted audio element becomes the user's audio sink. |
| `MeetingRoomPage.MeetingRoom.MountVideo` | client/src/pages/MeetingRoom.tsx:299-301 | A mounted video element becomes the user's video sink. |
| `MeetingRoomPage.MeetingRoom.ToggleMute` | client/src/pages/MeetingRoom.tsx:332-341 | `isMuted` flips. The first audio track is enabled iff now unmuted, and no other track changes. The only write is `is_muted` for (room, self). The mesh is not touched. |
| `MeetingRoomPage.MeetingRoom.ToggleVideo` | client/src/pages/MeetingRoom.tsx:350-359 | `videoOn` flips. The first video track is enabled iff video is on, and no other track changes. The only write is `video_on` for (room, self). |
| `MeetingRoomPage.MeetingRoom.Leave` | client/src/pages/MeetingRoom.tsx:368-374 | The only write is the deletion of (room, self). |
| `DashboardPage.Trim` | client/src/pages/Dashboard.tsx:21 | `trim` yields the infix left after dropping ECMAScript white space at both ends. The result neither starts nor ends with white space. |
| `DashboardPage.TrimEmptyIffBlank` | client/src/pages/Dashboard.tsx:21-22 | A code trims to empty exactly when it is all white space. |
| `DashboardPage.TrimUnpadded` | client/src/pages/Dashboard.tsx:21 | A string with no white space at either end is unchanged by trimming. |
| `DashboardPage.TrimIdempotent` | client/src/pages/Dashboard.tsx:21 | Trimming twice is trimming once. |
| `DashboardPage.MeetingCode` | client/src/pages/Dashboard.tsx:56 | The generated code is the first six characters of the UUID. It has length 6 and all its characters are lower-case hex digits. |
| `DashboardPage.RouteRoundTrip` | client/src/main.tsx:13 | `/meeting/<code>` routes to the meeting page with that code, for every non-empty code without `/`. |
| `DashboardPage.RouteOnlyMeetingPaths` | client/src/main.tsx:13 | Every path the route accepts is `/meeting/<its code>` with a non-empty code. |
| `DashboardPage.GeneratedCodeJoinable` | client/src/pages/Dashboard.tsx:56 | A generated code is unchanged by the join box's trim, is non-empty, and routes back to itself. |
| `DashboardPage.Dashboard.constructor` | client/src/pages/Dashboard.tsx:8-14 | Initial state: no error, not creating, no navigation. |
| `DashboardPage.Dashboard.HandleJoin` | client/src/pages/Dashboard.tsx:20-37 | A blank code does nothing: no lookup, no navigation, no change to the error. Otherwise the trimmed code is looked up. A missing result or a lookup error sets "Meeting not found." and does not navigate. A found room navigates to `/meeting/<trimmed code>`. |
| `DashboardPage.Dashboard.BeginCreate` | client/src/pages/Dashboard.tsx:41-42 | Creation starts with `creating = true` and `error = ""`. |
| `DashboardPage.Dashboard.CreateForUser` | client/src/pages/Dashboard.tsx:45-62 | Without a user: "User not authenticated", `creating = false`, nothing inserted. With one: one room is inserted under the six-character code, with `created_by` set to the user. |
| `DashboardPage.Dashboard.FinishCreate` | client/src/pages/Dashboard.tsx:64-71 | `creating` ends false. A failed insert sets "Failed to create meeting." and does not navigate. Success navigates to `/meeting/<code>`. |
| `DashboardPage.Dashboard.HandleCreate` | client/src/pages/Dashboard.tsx:40-72 | The whole handler always ends with `creating = false`. Success leaves `error = ""` and navigates to the new meeting. Each failure leaves its own message and does not navigate. |

## Where the code and the design differ

The model follows the code:

- **Capture failure.** A failed `getUserMedia` ends the join: no transport and
  no registration. The design treats capture failure as non-fatal.
- **Muting and the audio sink.** Muting does not detach a remote participant's
  audio element. The rebuild closes calls but leaves every element's
  `srcObject` as it was. The close handlers only forget `remoteStreams`.
  Only a new stream can be withheld from an audio element. An element that
  already plays a stream keeps it.
- **Inbound calls and the table.** An inbound call is stored under the
  caller's address. That replaces the outbound call this page placed to the
  same address. The replaced call is never closed by a later rebuild, because
  the rebuild closes only what the table holds (`OnIncomingCall` states this).
- **No serialised reconciliation.** Reconciliation is not serialised or
  coalesced. Each roster change, and each `videoOn` change, runs
  `ReconnectPeers` again (the effect at `MeetingRoom.tsx:217-223`).
- **Stale closures.** Handlers created during the join read the roster and
  user id of the page's first render. By that reading, the inbound handlers
  always see an empty roster, so every inbound stream is dropped. The
  rebuild inside `peer.on("open")` would then only close calls. The model
  takes the roster explicitly: `OnInboundStream`/`OnInboundClose` take the
  roster the handler sees, and `OnPeerOpen` rebuilds against the roster the
  page holds after the fetch. When the fetch returns data, the effect at
  lines 217-223 then rebuilds against that same roster. When it returns
  none, the code as written ends with an empty table and the model does not
  (see "## Left out"). Passing `[]` to the inbound handlers reproduces the
  code as written, since `FindByPeerId([], _)` is None.

## Left out

- JSX rendering and styling (`MeetingRoom.tsx:226-382`, `Dashboard.tsx:74-113`)
  are presentation. Only the element ref callbacks (`MountAudio`,
  `MountVideo`) and the button handlers are modelled. Rendering mounts sinks
  only for entries other than the local user (lines 256, 291), and the video
  element only while `video_on`. The model does not enforce this on callers
  of `MountAudio`/`MountVideo`.
- Attaching the local stream to the local preview element
  (`MeetingRoom.tsx:118-122`, `219-222`) and every `play()` promise are
  browser media I/O.
- The realtime subscription (`MeetingRoom.tsx:181-198`) only triggers
  `fetchParticipants`. The model has `FetchParticipants` and `ReconnectPeers`,
  and leaves the push channel out.
- The unmount cleanup (`MeetingRoom.tsx:203-213`) reads the first render's
  user id, which is null. Its delete therefore never runs, and channel
  removal is transport plumbing.
- Transport internals (PeerJS) are not modelled. That covers connection
  negotiation, whether `close()` itself raises a close event, and whether
  events can follow a close. The environment delivers each stream or close
  event through the matching method.
- The directory's query semantics are modelled only for the writes the page
  issues. The model assumes the upsert conflicts on (room, user). A partial
  update or delete whose user filter is null is modelled as matching no row.
- `Directory.IsSnapshot` states what a fetch returns. The model does not
  decide the order of the rows.
- MeetingRoomPage.MeetingRoom.ToggleMute: the handler's final
  `await fetchParticipants()` (`MeetingRoom.tsx:342`) is not part of the
  method. The caller applies `FetchParticipants` to that fetch's result.
- MeetingRoomPage.MeetingRoom.ToggleVideo: likewise for the final fetch at
  `MeetingRoom.tsx:360`.
- Media.FirstOfKind: takes the first track of a kind in the stream's track
  order. Browsers do not promise that `getAudioTracks()`/`getVideoTracks()`
  keep that order. This makes no difference for a `getUserMedia` stream with
  one audio and one video track, which is what the page captures.
- `DashboardPage.MatchMeetingRoute` treats `/meeting/:code` as the prefix plus
  one non-empty segment. It does not model percent-decoding, query strings,
  fragments or a trailing slash. The router also matches the static prefix
  case-insensitively by default (`/Meeting/x` reaches the page), and the
  model matches only the lower-case prefix. `RouteOnlyMeetingPaths` is
  about the model's matcher.
- MeetingRoomPage.MeetingRoom.OnPeerOpen: rebuilds against the roster the
  page holds after the fetch, which is the old roster when the fetch returns
  no data. The code as written calls the first render's `reconnectPeers`
  (`MeetingRoom.tsx:145`), which sees an empty roster. That closes every
  call and places none, and with no new data the effect at lines 217-223
  does not run again. The model does not capture that empty-table outcome.
- The copy-link button (`MeetingRoom.tsx:242-245`) writes to the clipboard.
  Its `/room/` path does not match the `/meeting/:code` route. The
  `window.location` navigation after Leave is a browser effect.
- `client/src/components/ProtectedRoute.tsx`, `client/src/main.tsx` (beyond
  the route pattern) and `client/src/pages/homepage.tsx` are routing, the
  auth listener and the OAuth redirect. They are not part of this model.
- The UUID generator is a parameter of type `UuidText` (36-character
  version-4 text). Its randomness and uniqueness are not modelled, so neither
  is the uniqueness of room codes.
