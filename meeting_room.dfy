/** The meeting page: joining a room, registering in the directory, the
    full-mesh rebuild of the connection table, the inbound/outbound stream
    and close handlers, and the mute/video toggles. The page's React state
    and refs are the fields of one object; each handler is a method, and
    every outcome of an external call (session, room lookup, media capture,
    transport address, fetched roster) is a parameter. */
module MeetingRoomPage {
  import opened Records
  import opened Media
  import opened Roster
  import Directory

  /** What a call object's handlers were set up with: an outbound call
      placed to `target`'s peer id carrying `sent`, or an inbound call from
      transport address `from` answered with `answered`. */
  datatype Call =
    | Outbound(target: Participant, sent: seq<Track>)
    | Inbound(from: string, answered: seq<Track>)

  /** The record upserted once the transport address is known. */
  function Registration(code: string, user: User, createdBy: string, peerId: string): (r: Participant)
    ensures Directory.KeyOf(r) == Directory.RowKey(code, user.id)
    ensures r.isHost <==> user.id == createdBy
    ensures !r.isMuted && r.videoOn && r.peerId == Some(peerId)
    ensures r.displayName != ""
    ensures user.fullName.Some? && user.fullName.value != "" ==> r.displayName == user.fullName.value
    ensures (user.fullName.None? || user.fullName.value == "") ==> r.displayName == "Guest"
  {
    Participant(
      roomCode := code,
      userId := user.id,
      displayName := if user.fullName.Some? && user.fullName.value != "" then user.fullName.value else "Guest",
      avatarUrl := if user.picture.Some? then user.picture.value else "",
      isMuted := false,
      videoOn := true,
      isHost := user.id == createdBy,
      peerId := Some(peerId))
  }

  /** Registering keeps "is_host exactly for the room's creator" true of the
      room's rows, so a room never gets a second host through joins. */
  lemma RegistrationKeepsSingleHost(rows: Directory.Rows, code: string, createdBy: string, user: User, peerId: string)
    requires Directory.HostsAreCreator(rows, code, createdBy)
    ensures Directory.HostsAreCreator(Directory.Apply(rows, Directory.Upsert(Registration(code, user, createdBy, peerId))), code, createdBy)
  {
  }

  /** The toggles' partial updates never touch `is_host`, and leaving only
      removes a row. */
  lemma TogglesKeepSingleHost(rows: Directory.Rows, code: string, createdBy: string, user: Option<string>, flag: bool)
    requires Directory.HostsAreCreator(rows, code, createdBy)
    ensures Directory.HostsAreCreator(Directory.Apply(rows, Directory.SetMuted(code, user, flag)), code, createdBy)
    ensures Directory.HostsAreCreator(Directory.Apply(rows, Directory.SetVideoOn(code, user, flag)), code, createdBy)
    ensures Directory.HostsAreCreator(Directory.Apply(rows, Directory.Remove(code, user)), code, createdBy)
  {
  }

  /** The entries a rebuild calls: the callees of the roster, or none while
      the transport endpoint does not exist. */
  function Planned(roster: seq<Participant>, self: Option<string>, hasPeer: bool): seq<Participant> {
    if hasPeer then Callees(roster, self) else []
  }

  lemma PlannedStep(roster: seq<Participant>, i: nat, self: Option<string>, hasPeer: bool)
    requires i < |roster|
    ensures Planned(roster[..i + 1], self, hasPeer)
            == Planned(roster[..i], self, hasPeer) + if Callable(roster[i], self) && hasPeer then [roster[i]] else []
  {
    CalleesStep(roster, i, self);
  }

  class MeetingRoom {
    /** The room code taken from the route `/meeting/:code`. */
    const code: string
    /** None until the join attempt decides; Some(false) renders "Meeting not found." */
    var roomExists: Option<bool>
    var participants: seq<Participant>
    var userId: Option<string>
    /** The signed-in user and the room's creator, as the join looked them up;
        the transport's handlers close over both. */
    var account: Option<User>
    var creator: Option<string>
    var isMuted: bool
    var videoOn: bool
    /** The captured camera/microphone stream, once there is one. */
    var localStream: Option<seq<Track>>
    /** Whether the page's transport endpoint has been created. */
    var hasPeer: bool
    /** The connection table, keyed by remote transport address. */
    var peers: map<string, CallId>
    /** Every call object the page has placed or answered, by handle. */
    var calls: map<CallId, Call>
    var nextCall: CallId
    /** The calls the page has closed itself. */
    var closed: set<CallId>
    /** The last stream received from each remote user. */
    var remoteStreams: map<string, StreamId>
    /** The mounted playback elements, per remote user. */
    var videoRefs: map<string, ElementId>
    var audioRefs: map<string, ElementId>
    /** The `srcObject` of each video / audio element that has one. */
    var videoSrc: map<ElementId, StreamId>
    var audioSrc: map<ElementId, StreamId>
    /** The directory writes issued so far, in order. */
    var writes: seq<Directory.Write>

    /** Call handles are allocated densely; the table holds only open calls,
        each under one address. */
    ghost predicate Valid()
      reads this`calls, this`nextCall, this`closed, this`peers
    {
      && (forall id: CallId :: id in calls <==> id < nextCall)
      && closed <= calls.Keys
      && peers.Values <= calls.Keys
      && peers.Values !! closed
      && (forall a, b :: a in peers && b in peers && a != b ==> peers[a] != peers[b])
    }

    function LocalTracks(): seq<Track>
      reads this
    {
      if localStream.Some? then localStream.value else []
    }

    twostate predicate SessionUnchanged()
      reads this
    {
      && roomExists == old(roomExists) && participants == old(participants) && userId == old(userId)
      && isMuted == old(isMuted) && videoOn == old(videoOn)
      && localStream == old(localStream) && hasPeer == old(hasPeer)
      && JoinUnchanged()
    }

    twostate predicate JoinUnchanged()
      reads this
    {
      account == old(account) && creator == old(creator)
    }

    twostate predicate MeshUnchanged()
      reads this
    {
      peers == old(peers) && calls == old(calls) && nextCall == old(nextCall) && closed == old(closed)
    }

    twostate predicate PlaybackUnchanged()
      reads this
    {
      && remoteStreams == old(remoteStreams) && videoRefs == old(videoRefs) && audioRefs == old(audioRefs)
      && videoSrc == old(videoSrc) && audioSrc == old(audioSrc)
    }

    /** The page's initial state for route parameter `code`. */
    constructor (code: string)
      ensures Valid() && this.code == code
      ensures roomExists.None? && participants == [] && userId.None? && account.None? && creator.None?
      ensures !isMuted && videoOn && localStream.None? && !hasPeer
      ensures peers == map[] && calls == map[] && nextCall == 0 && closed == {}
      ensures remoteStreams == map[] && videoRefs == map[] && audioRefs == map[]
      ensures videoSrc == map[] && audioSrc == map[] && writes == []
    {
      this.code := code;
      roomExists, participants, userId, account, creator := None, [], None, None, None;
      isMuted, videoOn, localStream, hasPeer := false, true, None, false;
      peers, calls, nextCall, closed := map[], map[], 0, {};
      remoteStreams, videoRefs, audioRefs := map[], map[], map[];
      videoSrc, audioSrc, writes := map[], map[], [];
    }

    /** The join attempt up to the creation of the transport endpoint. It
        stops at the first missing piece: no session, then a missing room or
        a lookup error, then a capture that did not deliver a stream. */
    method JoinRoom(session: Option<User>, room: Lookup<RoomRecord>, capture: Option<seq<Track>>)
      requires Valid()
      modifies this`roomExists, this`userId, this`account, this`creator, this`localStream, this`hasPeer
      ensures Valid()
      ensures session.None? ==> roomExists == Some(false) && userId == old(userId)
      ensures session.Some? ==> userId == Some(session.value.id) && account == session
      ensures session.None? ==> account == old(account)
      ensures session.Some? && !room.Missing() ==> creator == Some(room.data.value.createdBy)
      ensures session.None? || room.Missing() ==> creator == old(creator)
      ensures session.Some? && room.Missing() ==> roomExists == Some(false)
      ensures session.Some? && !room.Missing() ==> roomExists == Some(true)
      ensures session.None? || room.Missing() || capture.None? ==>
                localStream == old(localStream) && hasPeer == old(hasPeer)
      ensures session.Some? && !room.Missing() && capture.Some? ==>
                localStream == capture && hasPeer
    {
      if session.None? {
        roomExists := Some(false);
        return;
      }
      var user := session.value;
      userId, account := Some(user.id), session;
      if room.Missing() {
        roomExists := Some(false);
        return;
      }
      roomExists, creator := Some(true), Some(room.data.value.createdBy);
      if capture.None? {
        // getUserMedia rejected: the join stops here.
        return;
      }
      localStream := capture;
      hasPeer := true;
    }

    /** `fetchParticipants`: a fetch that returned data replaces the roster
        (an empty list included); one that returned nothing changes nothing. */
    method FetchParticipants(data: Option<seq<Participant>>)
      modifies this`participants
      ensures participants == if data.Some? then data.value else old(participants)
    {
      if data.Some? {
        participants := data.value;
      }
    }

    /** A new stream carrying the current local tracks, in order; an empty
        stream when nothing has been captured. */
    method GetFreshStream() returns (s: seq<Track>)
      ensures s == if localStream.Some? then localStream.value else []
    {
      s := [];
      if localStream.Some? {
        var tracks := localStream.value;
        var i := 0;
        while i < |tracks|
          invariant 0 <= i <= |tracks|
          invariant s == tracks[..i]
        {
          s := s + [tracks[i]];
          i := i + 1;
        }
      }
    }

    /** Close every call of the table, then empty it. */
    method CloseAllCalls()
      requires Valid()
      modifies this`closed, this`peers
      ensures Valid()
      ensures closed == old(closed) + old(peers).Values && peers == map[]
    {
      var pending := peers.Keys;
      var closing := closed;
      while pending != {}
        invariant pending <= peers.Keys
        invariant closing == closed + set k | k in peers.Keys - pending :: peers[k]
        decreases pending
      {
        var k :| k in pending;
        closing := closing + {peers[k]};
        pending := pending - {k};
      }
      assert peers.Values == set k | k in peers.Keys :: peers[k];
      closed := closing;
      peers := map[];
    }

    /** Every entry of the table is a call placed at or after handle `lo`
        to the address it is stored under. */
    ghost predicate TableTargets(lo: CallId)
      reads this
    {
      forall k :: k in peers ==>
        lo <= peers[k] && peers[k] in calls && calls[peers[k]].Outbound? && calls[peers[k]].target.peerId == Some(k)
    }

    /** The calls from handle `lo` on were placed to `placed`, in order, each
        carrying the current local tracks. */
    ghost predicate PlacedFrom(lo: CallId, placed: seq<Participant>)
      reads this
    {
      && nextCall == lo + |placed|
      && forall j :: 0 <= j < |placed| ==> lo + j in calls && calls[lo + j] == Outbound(placed[j], LocalTracks())
    }

    /** Midway through the rebuild: the table holds exactly the calls placed
        from handle `lo` on, to `placed`, keyed by their peer ids. */
    ghost predicate Rebuilding(lo: CallId, placed: seq<Participant>)
      reads this
    {
      Valid() && TableTargets(lo) && PlacedFrom(lo, placed) && peers.Keys == PeerIds(placed)
    }

    /** Place one outbound call to `p`'s peer id carrying a fresh copy of
        the local tracks, and store it in the table under that peer id. */
    method PlaceCall(p: Participant, ghost lo: CallId, ghost placed: seq<Participant>) returns (c: CallId)
      requires Valid() && p.peerId.Some?
      requires TableTargets(lo) && PlacedFrom(lo, placed)
      modifies this`calls, this`nextCall, this`peers
      ensures Valid() && TableTargets(lo) && PlacedFrom(lo, placed + [p])
      ensures c == old(nextCall) && nextCall == c + 1
      ensures calls == old(calls)[c := Outbound(p, LocalTracks())]
      ensures peers == old(peers)[p.peerId.value := c]
    {
      var stream := GetFreshStream();
      c := nextCall;
      assert c !in peers.Values;
      calls := calls[c := Outbound(p, stream)];
      nextCall := nextCall + 1;
      peers := peers[p.peerId.value := c];
    }

    /** The body of the rebuild's loop for one roster entry: call it when it
        is callable and the transport endpoint exists, otherwise do nothing. */
    method ConnectTo(p: Participant, ghost lo: CallId, ghost placed: seq<Participant>)
      returns (ghost placed': seq<Participant>)
      requires Rebuilding(lo, placed)
      modifies this`calls, this`nextCall, this`peers
      ensures Rebuilding(lo, placed')
      ensures placed' == placed + if Callable(p, userId) && hasPeer then [p] else []
      ensures forall id :: id in old(calls) ==> calls[id] == old(calls)[id]
    {
      placed' := placed;
      if Callable(p, userId) && hasPeer {
        PeerIdsSnoc(placed, p);
        var _ := PlaceCall(p, lo, placed);
        placed' := placed + [p];
      }
    }

    /** The second half of the rebuild, on an emptied table: one call per
        callable roster entry, in roster order, each stored under the
        entry's peer id; none without a transport endpoint. */
    method CallRoster()
      requires Valid() && peers == map[]
      modifies this`calls, this`nextCall, this`peers
      ensures Rebuilding(old(nextCall), Planned(participants, userId, hasPeer))
      ensures forall id :: id in old(calls) ==> calls[id] == old(calls)[id]
    {
      ghost var placed: seq<Participant> := [];
      ghost var lo := nextCall;
      ghost var roster, self, hp := participants, userId, hasPeer;
      assert PeerIds([]) == {};
      var i := 0;
      while i < |participants|
        invariant 0 <= i <= |roster|
        invariant placed == Planned(roster[..i], self, hp)
        invariant Rebuilding(lo, placed)
        invariant forall id :: id in old(calls) ==> calls[id] == old(calls)[id]
      {
        PlannedStep(roster, i, self, hp);
        placed := ConnectTo(participants[i], lo, placed);
        i := i + 1;
      }
      assert roster[..i] == roster;
    }

    /** The full-mesh rebuild: every call of the table is closed and the
        table emptied; then one call is placed per callable roster entry, in
        roster order, each carrying a fresh copy of the local tracks and
        stored under the entry's peer id. Nothing is placed without a
        transport endpoint. */
    method ReconnectPeers()
      requires Valid()
      modifies this`closed, this`peers, this`calls, this`nextCall
      ensures Valid()
      ensures closed == old(closed) + old(peers).Values
      ensures peers.Keys == if hasPeer then DesiredPeers(participants, userId) else {}
      ensures PlacedFrom(old(nextCall), Planned(participants, userId, hasPeer))
      ensures forall id :: id in old(calls) ==> calls[id] == old(calls)[id]
      ensures TableTargets(old(nextCall))
      ensures SessionUnchanged() && PlaybackUnchanged() && writes == old(writes)
    {
      CloseAllCalls();
      CallRoster();
    }

    /** The transport reported its address: register in the directory, read
        the roster, rebuild the mesh. */
    method OnPeerOpen(peerId: string, fetched: Option<seq<Participant>>)
      requires Valid() && hasPeer && account.Some? && creator.Some? && userId == Some(account.value.id)
      modifies this`writes, this`participants, this`closed, this`peers, this`calls, this`nextCall
      ensures Valid()
      ensures writes == old(writes) + [Directory.Upsert(Registration(code, account.value, creator.value, peerId))]
      ensures participants == if fetched.Some? then fetched.value else old(participants)
      ensures closed == old(closed) + old(peers).Values
      ensures peers.Keys == if hasPeer then DesiredPeers(participants, userId) else {}
      ensures PlacedFrom(old(nextCall), Planned(participants, userId, hasPeer)) && TableTargets(old(nextCall))
      ensures forall id :: id in old(calls) ==> calls[id] == old(calls)[id]
    {
      writes := writes + [Directory.Upsert(Registration(code, account.value, creator.value, peerId))];
      FetchParticipants(fetched);
      assert calls == old(calls) && nextCall == old(nextCall) && peers == old(peers);
      ReconnectPeers();
    }

    /** Record `s` as `p`'s stream and play it: on `p`'s video element
        whenever one is mounted, on `p`'s audio element only when `p`'s
        record says not muted. */
    method Play(p: Participant, s: StreamId)
      modifies this`remoteStreams, this`videoSrc, this`audioSrc
      ensures remoteStreams == old(remoteStreams)[p.userId := s]
      ensures videoSrc == if p.userId in videoRefs then old(videoSrc)[videoRefs[p.userId] := s] else old(videoSrc)
      ensures audioSrc == if p.userId in audioRefs && !p.isMuted then old(audioSrc)[audioRefs[p.userId] := s]
                          else old(audioSrc)
      ensures p.isMuted ==> audioSrc == old(audioSrc)
    {
      remoteStreams := remoteStreams[p.userId := s];
      if p.userId in videoRefs {
        videoSrc := videoSrc[videoRefs[p.userId] := s];
      }
      if p.userId in audioRefs && !p.isMuted {
        audioSrc := audioSrc[audioRefs[p.userId] := s];
      }
    }

    /** A stream arrived on an outbound call: play it for the participant
        the call was placed to, with that participant's record as it was
        when the call was placed. */
    method OnOutboundStream(c: CallId, s: StreamId)
      requires c in calls && calls[c].Outbound?
      modifies this`remoteStreams, this`videoSrc, this`audioSrc
      ensures var p := calls[c].target;
                && remoteStreams == old(remoteStreams)[p.userId := s]
                && videoSrc == (if p.userId in videoRefs then old(videoSrc)[videoRefs[p.userId] := s] else old(videoSrc))
                && audioSrc == (if p.userId in audioRefs && !p.isMuted then old(audioSrc)[audioRefs[p.userId] := s]
                                else old(audioSrc))
      ensures calls[c].target.isMuted ==> audioSrc == old(audioSrc)
    {
      Play(calls[c].target, s);
    }

    /** An outbound call closed: forget its participant's stream, and only
        that. The playback elements keep their `srcObject`. */
    method OnOutboundClose(c: CallId)
      requires c in calls && calls[c].Outbound?
      modifies this`remoteStreams
      ensures remoteStreams == old(remoteStreams) - {calls[c].target.userId}
    {
      remoteStreams := remoteStreams - {calls[c].target.userId};
    }

    /** An inbound call from transport address `from`: answer it with a fresh
        copy of the local tracks and store it in the table under `from`. A
        call already stored there is displaced without being closed, so no
        later rebuild closes it either. */
    method OnIncomingCall(from: string) returns (c: CallId)
      requires Valid() && hasPeer
      modifies this`calls, this`nextCall, this`peers
      ensures Valid()
      ensures c == old(nextCall) && c !in old(calls)
      ensures calls == old(calls)[c := Inbound(from, LocalTracks())] && nextCall == c + 1
      ensures peers == old(peers)[from := c] && closed == old(closed)
      ensures from in old(peers) ==> old(peers)[from] !in closed && old(peers)[from] !in peers.Values
    {
      var stream := GetFreshStream();
      c := nextCall;
      calls := calls[c := Inbound(from, stream)];
      nextCall := nextCall + 1;
      peers := peers[from := c];
    }

    /** A stream arrived on an inbound call. It is attributed through the
        roster the handler sees; from an address no entry carries it is
        dropped. Audio is gated on the matched record as for outbound calls. */
    method OnInboundStream(c: CallId, s: StreamId, roster: seq<Participant>)
      requires c in calls && calls[c].Inbound?
      modifies this`remoteStreams, this`videoSrc, this`audioSrc
      ensures var m := FindByPeerId(roster, calls[c].from);
                && (m.None? ==> remoteStreams == old(remoteStreams) && videoSrc == old(videoSrc) && audioSrc == old(audioSrc))
                && (m.Some? ==>
                      && remoteStreams == old(remoteStreams)[m.value.userId := s]
                      && videoSrc == (if m.value.userId in videoRefs then old(videoSrc)[videoRefs[m.value.userId] := s]
                                      else old(videoSrc))
                      && audioSrc == (if m.value.userId in audioRefs && !m.value.isMuted
                                      then old(audioSrc)[audioRefs[m.value.userId] := s] else old(audioSrc)))
    {
      var matching := FindByPeerId(roster, calls[c].from);
      if matching.Some? {
        Play(matching.value, s);
      }
    }

    /** An inbound call closed: forget the stream of the participant the
        roster attributes it to, if any. */
    method OnInboundClose(c: CallId, roster: seq<Participant>)
      requires c in calls && calls[c].Inbound?
      modifies this`remoteStreams
      ensures var m := FindByPeerId(roster, calls[c].from);
                remoteStreams == if m.Some? then old(remoteStreams) - {m.value.userId} else old(remoteStreams)
    {
      var matching := FindByPeerId(roster, calls[c].from);
      if matching.Some? {
        remoteStreams := remoteStreams - {matching.value.userId};
      }
    }

    /** A remote participant's <video> element mounted. */
    method MountVideo(user: string, e: ElementId)
      modifies this`videoRefs
      ensures videoRefs == old(videoRefs)[user := e]
    {
      videoRefs := videoRefs[user := e];
    }

    /** A remote participant's <audio> element mounted. */
    method MountAudio(user: string, e: ElementId)
      modifies this`audioRefs
      ensures audioRefs == old(audioRefs)[user := e]
    {
      audioRefs := audioRefs[user := e];
    }

    /** The mute button: flip the flag, enable the first audio track exactly
        when no longer muted, and ask the directory to update `is_muted` on
        the caller's own row. */
    method ToggleMute()
      requires Valid()
      modifies this`isMuted, this`writes, LocalTracks()
      ensures Valid()
      ensures isMuted == !old(isMuted)
      ensures var a := FirstOfKind(old(LocalTracks()), Audio);
                && (a.Some? ==> a.value.enabled == !isMuted)
                && forall t :: t in old(LocalTracks()) && Some(t) != a ==> t.enabled == old(t.enabled)
      ensures writes == old(writes) + [Directory.SetMuted(code, userId, isMuted)]
      ensures roomExists == old(roomExists) && participants == old(participants) && userId == old(userId)
      ensures videoOn == old(videoOn) && localStream == old(localStream) && hasPeer == old(hasPeer)
      ensures JoinUnchanged() && MeshUnchanged() && PlaybackUnchanged()
    {
      var newMuted := !isMuted;
      isMuted := newMuted;
      var audioTrack := FirstOfKind(LocalTracks(), Audio);
      if audioTrack.Some? {
        audioTrack.value.enabled := !newMuted;
      }
      writes := writes + [Directory.SetMuted(code, userId, newMuted)];
    }

    /** The video button: flip the flag, enable the first video track exactly
        when video is on, and ask the directory to update `video_on` on the
        caller's own row. */
    method ToggleVideo()
      requires Valid()
      modifies this`videoOn, this`writes, LocalTracks()
      ensures Valid()
      ensures videoOn == !old(videoOn)
      ensures var v := FirstOfKind(old(LocalTracks()), Video);
                && (v.Some? ==> v.value.enabled == videoOn)
                && forall t :: t in old(LocalTracks()) && Some(t) != v ==> t.enabled == old(t.enabled)
      ensures writes == old(writes) + [Directory.SetVideoOn(code, userId, videoOn)]
      ensures roomExists == old(roomExists) && participants == old(participants) && userId == old(userId)
      ensures isMuted == old(isMuted) && localStream == old(localStream) && hasPeer == old(hasPeer)
      ensures JoinUnchanged() && MeshUnchanged() && PlaybackUnchanged()
    {
      var newVideo := !videoOn;
      videoOn := newVideo;
      var videoTrack := FirstOfKind(LocalTracks(), Video);
      if videoTrack.Some? {
        videoTrack.value.enabled := newVideo;
      }
      writes := writes + [Directory.SetVideoOn(code, userId, newVideo)];
    }

    /** The Leave button: ask the directory to delete the caller's own row
        (the page then navigates home). */
    method Leave()
      modifies this`writes
      ensures writes == old(writes) + [Directory.Remove(code, userId)]
    {
      writes := writes + [Directory.Remove(code, userId)];
    }
  }
}
