/** The `room_participants` table as the meeting page uses it: rows keyed by
    (room code, user id), written with an upsert on join and with partial
    updates by the mute and video toggles, read back as a per-room roster. */
module Directory {
  import opened Records

  datatype RowKey = RowKey(room: string, user: string)

  type Rows = map<RowKey, Participant>

  /** The writes the meeting page issues against the table. A partial update
      whose user filter is null (`userId` not yet known) matches no row. */
  datatype Write =
    | Upsert(row: Participant)
    | SetMuted(room: string, user: Option<string>, muted: bool)
    | SetVideoOn(room: string, user: Option<string>, on: bool)
    | Remove(room: string, user: Option<string>)

  function KeyOf(p: Participant): RowKey {
    RowKey(p.roomCode, p.userId)
  }

  /** Every row is stored under its own (room, user) key: at most one record
      per participant of a room. */
  ghost predicate WellKeyed(rows: Rows) {
    forall k :: k in rows ==> KeyOf(rows[k]) == k
  }

  /** The row a write addresses, if it addresses one. */
  function Target(w: Write): Option<RowKey> {
    match w
    case Upsert(row) => Some(KeyOf(row))
    case SetMuted(room, user, _) => if user.Some? then Some(RowKey(room, user.value)) else None
    case SetVideoOn(room, user, _) => if user.Some? then Some(RowKey(room, user.value)) else None
    case Remove(room, user) => if user.Some? then Some(RowKey(room, user.value)) else None
  }

  /** Effect of one write: upsert inserts or overwrites its key, a partial
      update changes one field of an existing row, a removal deletes the
      addressed row; no other row is touched. */
  function Apply(rows: Rows, w: Write): (r: Rows)
    ensures forall k :: k in rows && Some(k) != Target(w) ==> k in r && r[k] == rows[k]
    ensures r.Keys == match w
                      case Upsert(row) => rows.Keys + {KeyOf(row)}
                      case Remove(_, _) => if Target(w).Some? then rows.Keys - {Target(w).value} else rows.Keys
                      case _ => rows.Keys
    ensures WellKeyed(rows) ==> WellKeyed(r)
    ensures w.Upsert? ==> r[KeyOf(w.row)] == w.row
    ensures w.SetMuted? && Target(w).Some? && Target(w).value in rows ==>
              r[Target(w).value] == rows[Target(w).value].(isMuted := w.muted)
    ensures w.SetVideoOn? && Target(w).Some? && Target(w).value in rows ==>
              r[Target(w).value] == rows[Target(w).value].(videoOn := w.on)
  {
    match w
    case Upsert(row) => rows[KeyOf(row) := row]
    case SetMuted(room, user, m) =>
      if user.Some? && RowKey(room, user.value) in rows then
        var k := RowKey(room, user.value);
        rows[k := rows[k].(isMuted := m)]
      else rows
    case SetVideoOn(room, user, on) =>
      if user.Some? && RowKey(room, user.value) in rows then
        var k := RowKey(room, user.value);
        rows[k := rows[k].(videoOn := on)]
      else rows
    case Remove(room, user) =>
      if user.Some? then rows - {RowKey(room, user.value)} else rows
  }

  /** The mute toggle's update flips exactly the `is_muted` field of the
      caller's own row, when that row exists. */
  lemma SetMutedChangesOnlyOwnFlag(rows: Rows, room: string, user: string, m: bool)
    requires RowKey(room, user) in rows
    ensures var r := Apply(rows, SetMuted(room, Some(user), m));
      r.Keys == rows.Keys &&
      r[RowKey(room, user)] == rows[RowKey(room, user)].(isMuted := m) &&
      forall k :: k in rows && k != RowKey(room, user) ==> r[k] == rows[k]
  {
  }

  /** The video toggle's update flips exactly the `video_on` field of the
      caller's own row, when that row exists. */
  lemma SetVideoOnChangesOnlyOwnFlag(rows: Rows, room: string, user: string, on: bool)
    requires RowKey(room, user) in rows
    ensures var r := Apply(rows, SetVideoOn(room, Some(user), on));
      r.Keys == rows.Keys &&
      r[RowKey(room, user)] == rows[RowKey(room, user)].(videoOn := on) &&
      forall k :: k in rows && k != RowKey(room, user) ==> r[k] == rows[k]
  {
  }

  /** Upserting the same record twice leaves the table as one upsert does,
      so re-registering on every transport `open` is harmless. */
  lemma UpsertIdempotent(rows: Rows, row: Participant)
    ensures Apply(Apply(rows, Upsert(row)), Upsert(row)) == Apply(rows, Upsert(row))
  {
  }

  /** The rows of one room. */
  ghost function RosterOf(rows: Rows, room: string): set<Participant> {
    set k | k in rows && k.room == room :: rows[k]
  }

  /** `roster` is what a fetch of `room` returns: every row of the room,
      each exactly once, in some order. */
  ghost predicate IsSnapshot(roster: seq<Participant>, rows: Rows, room: string) {
    && (forall p :: p in roster <==> p in RosterOf(rows, room))
    && (forall i, j :: 0 <= i < j < |roster| ==> roster[i] != roster[j])
  }

  /** In a fetched roster no user appears twice, because the table holds one
      row per (room, user). */
  lemma SnapshotUsersDistinct(roster: seq<Participant>, rows: Rows, room: string)
    requires WellKeyed(rows)
    requires IsSnapshot(roster, rows, room)
    ensures forall i, j :: 0 <= i < j < |roster| ==> roster[i].userId != roster[j].userId
  {
    forall i, j | 0 <= i < j < |roster|
      ensures roster[i].userId != roster[j].userId
    {
      assert roster[i] in RosterOf(rows, room);
      assert roster[j] in RosterOf(rows, room);
      var ki :| ki in rows && ki.room == room && rows[ki] == roster[i];
      var kj :| kj in rows && kj.room == room && rows[kj] == roster[j];
      assert KeyOf(roster[i]) == ki && KeyOf(roster[j]) == kj;
    }
  }

  /** After a participant's row is removed, no fresh fetch of the room lists
      that participant, so the next rebuild of every other client drops them. */
  lemma {:induction false} RemovedUserLeavesRoster(rows: Rows, room: string, user: string, roster: seq<Participant>)
    requires WellKeyed(rows)
    requires IsSnapshot(roster, Apply(rows, Remove(room, Some(user))), room)
    ensures forall i :: 0 <= i < |roster| ==> roster[i].userId != user
  {
    var r := Apply(rows, Remove(room, Some(user)));
    forall i | 0 <= i < |roster|
      ensures roster[i].userId != user
    {
      assert roster[i] in RosterOf(r, room);
      var k :| k in r && k.room == room && r[k] == roster[i];
      assert KeyOf(roster[i]) == k && k != RowKey(room, user);
    }
  }

  /** Every row of `room` has `is_host` exactly when its user created the room. */
  ghost predicate HostsAreCreator(rows: Rows, room: string, createdBy: string) {
    forall k :: k in rows && k.room == room ==> (rows[k].isHost <==> k.user == createdBy)
  }

  /** Under that invariant a room has at most one host row. */
  lemma AtMostOneHost(rows: Rows, room: string, createdBy: string, k1: RowKey, k2: RowKey)
    requires HostsAreCreator(rows, room, createdBy)
    requires k1 in rows && k2 in rows && k1.room == room && k2.room == room
    requires rows[k1].isHost && rows[k2].isHost
    ensures k1 == k2
  {
  }
}
