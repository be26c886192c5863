/** Pure questions the meeting page asks of a roster snapshot: whom to call
    when the mesh is rebuilt, and which participant an inbound call comes
    from. */
module Roster {
  import opened Records

  /** The per-entry guard of the rebuild loop, without the "transport exists"
      part: the entry is not the local user, and its `peer_id` is present and
      non-empty (JavaScript treats "" as false). `self` is None while the
      local user id is still unknown, and then no entry is excluded. */
  predicate Callable(p: Participant, self: Option<string>) {
    Some(p.userId) != self && p.peerId.Some? && p.peerId.value != ""
  }

  function Last(roster: seq<Participant>): Participant
    requires roster != []
  {
    roster[|roster| - 1]
  }

  /** The entries the rebuild calls, in roster order. */
  function Callees(roster: seq<Participant>, self: Option<string>): (r: seq<Participant>)
    ensures forall p :: p in r <==> p in roster && Callable(p, self)
    ensures |r| <= |roster|
  {
    if roster == [] then []
    else
      var init := roster[..|roster| - 1];
      assert roster == init + [Last(roster)];
      Callees(init, self) + (if Callable(Last(roster), self) then [Last(roster)] else [])
  }

  /** One more entry of the roster extends the callees by that entry when
      it is callable. */
  lemma CalleesStep(roster: seq<Participant>, i: nat, self: Option<string>)
    requires i < |roster|
    ensures Callees(roster[..i + 1], self) == Callees(roster[..i], self) + (if Callable(roster[i], self) then [roster[i]] else [])
  {
    assert roster[..i + 1][..i] == roster[..i];
  }

  /** The peer ids of some entries that have one. */
  function PeerIds(ps: seq<Participant>): set<string> {
    set p | p in ps && p.peerId.Some? :: p.peerId.value
  }

  lemma PeerIdsSnoc(ps: seq<Participant>, x: Participant)
    ensures PeerIds(ps + [x]) == PeerIds(ps) + (if x.peerId.Some? then {x.peerId.value} else {})
  {
    assert forall p :: p in ps + [x] <==> p in ps || p == x;
  }

  /** The key set of the connection table after a rebuild: exactly the
      peer ids of the callable entries. */
  function DesiredPeers(roster: seq<Participant>, self: Option<string>): (ks: set<string>)
    ensures forall k :: k in ks <==> exists p :: p in roster && Callable(p, self) && p.peerId == Some(k)
    ensures "" !in ks
  {
    PeerIds(Callees(roster, self))
  }

  /** When peer ids identify users within the roster (the page registers
      each user under a transport address named after its user id), the
      local user's own address is never among the desired peers. */
  lemma SelfNeverDesired(roster: seq<Participant>, self: string, i: nat)
    requires i < |roster| && roster[i].userId == self && roster[i].peerId.Some?
    requires forall a, b ::
               (0 <= a < |roster| && 0 <= b < |roster| && roster[a].peerId.Some? && roster[a].peerId == roster[b].peerId)
               ==> roster[a].userId == roster[b].userId
    ensures roster[i].peerId.value !in DesiredPeers(roster, Some(self))
  {
  }

  /** `participants.find(p => p.peer_id === peer)`: the first entry whose
      peer id is `peer`, or None when no entry has it. */
  function FindByPeerId(roster: seq<Participant>, peer: string): (r: Option<Participant>)
    ensures r.None? <==> forall i :: 0 <= i < |roster| ==> roster[i].peerId != Some(peer)
    ensures r.Some? ==> exists i :: 0 <= i < |roster| && roster[i] == r.value && r.value.peerId == Some(peer)
                          && forall j :: 0 <= j < i ==> roster[j].peerId != Some(peer)
  {
    if roster == [] then None
    else if roster[0].peerId == Some(peer) then Some(roster[0])
    else
      var r := FindByPeerId(roster[1..], peer);
      assert forall i :: 1 <= i < |roster| ==> roster[i] == roster[1..][i - 1];
      if r.Some? then
        ghost var i :| 0 <= i < |roster[1..]| && roster[1..][i] == r.value && r.value.peerId == Some(peer)
                        && forall j :: 0 <= j < i ==> roster[1..][j].peerId != Some(peer);
        assert roster[i + 1] == r.value;
        r
      else r
  }

  /** Two-party scenario: U1 created the room, U2 joined; the roster lists
      both, each with a non-empty address. U2 calls exactly U1's address and
      never its own, and the other way round. */
  lemma {:induction false} TwoPartyMesh(u1: Participant, u2: Participant, a: string, b: string)
    requires u1.userId != u2.userId && a != "" && b != ""
    requires u1.peerId == Some(a) && u2.peerId == Some(b)
    ensures DesiredPeers([u1, u2], Some(u2.userId)) == {a}
    ensures DesiredPeers([u1, u2], Some(u1.userId)) == {b}
  {
    assert Callable(u1, Some(u2.userId)) && !Callable(u2, Some(u2.userId));
    assert Callable(u2, Some(u1.userId)) && !Callable(u1, Some(u1.userId));
  }
}
