/** The dashboard: joining a meeting by a typed code, and creating a meeting
    under a fresh six-character code. The outcomes of the directory query,
    the identity lookup, the UUID generator and the insert are parameters;
    the page's state (`error`, `creating`) and its effects (queries issued,
    rooms inserted, navigation) are fields. */
module DashboardPage {
  import opened Records

  /** The characters `String.prototype.trim` removes: ECMAScript white space
      and line terminators. */
  predicate IsJsSpace(c: char) {
    || c == '\t' || c == '\n' || c == '\U{000B}' || c == '\U{000C}' || c == '\r' || c == ' '
    || c == '\U{00A0}' || c == '\U{1680}' || ('\U{2000}' <= c <= '\U{200A}')
    || c == '\U{2028}' || c == '\U{2029}' || c == '\U{202F}' || c == '\U{205F}'
    || c == '\U{3000}' || c == '\U{FEFF}'
  }

  /** The first index at or after `i` that is not white space, or `|s|`. */
  function SkipSpace(s: string, i: nat): (j: nat)
    requires i <= |s|
    ensures i <= j <= |s|
    ensures forall k :: i <= k < j ==> IsJsSpace(s[k])
    ensures j == |s| || !IsJsSpace(s[j])
    decreases |s| - i
  {
    if i < |s| && IsJsSpace(s[i]) then SkipSpace(s, i + 1) else i
  }

  /** Scanning back from `j` towards `lo`: the end of the last character
      before `j` that is not white space, or `lo`. */
  function SkipSpaceBack(s: string, lo: nat, j: nat): (e: nat)
    requires lo <= j <= |s|
    ensures lo <= e <= j
    ensures forall k :: e <= k < j ==> IsJsSpace(s[k])
    ensures e == lo || !IsJsSpace(s[e - 1])
    decreases j - lo
  {
    if lo < j && IsJsSpace(s[j - 1]) then SkipSpaceBack(s, lo, j - 1) else j
  }

  /** How many white-space characters `s` starts with. */
  function Lead(s: string): nat
    ensures Lead(s) <= |s|
  {
    SkipSpace(s, 0)
  }

  /** `s.trim()`: the infix of `s` left after dropping white space at both
      ends; it neither starts nor ends with white space. */
  function Trim(s: string): (r: string)
    ensures Lead(s) + |r| <= |s| && r == s[Lead(s)..Lead(s) + |r|]
    ensures forall k :: 0 <= k < Lead(s) ==> IsJsSpace(s[k])
    ensures forall k :: Lead(s) + |r| <= k < |s| ==> IsJsSpace(s[k])
    ensures r == [] || (!IsJsSpace(r[0]) && !IsJsSpace(r[|r| - 1]))
  {
    s[Lead(s)..SkipSpaceBack(s, Lead(s), |s|)]
  }

  /** A typed code counts as empty exactly when it is all white space. */
  lemma TrimEmptyIffBlank(s: string)
    ensures Trim(s) == [] <==> forall k :: 0 <= k < |s| ==> IsJsSpace(s[k])
  {
    if Trim(s) != [] {
      assert s[Lead(s)] == Trim(s)[0];
    }
  }

  /** Trimming a string without white space at either end changes nothing. */
  lemma {:induction false} TrimUnpadded(s: string)
    requires s == [] || (!IsJsSpace(s[0]) && !IsJsSpace(s[|s| - 1]))
    ensures Trim(s) == s
  {
    assert Lead(s) == 0;
    assert SkipSpaceBack(s, 0, |s|) == |s|;
  }

  /** Trimming twice is trimming once. */
  lemma TrimIdempotent(s: string)
    ensures Trim(Trim(s)) == Trim(s)
  {
    TrimUnpadded(Trim(s));
  }

  predicate IsHexDigit(c: char) {
    '0' <= c <= '9' || 'a' <= c <= 'f'
  }

  /** The text form of a version-4 UUID as the generator produces it:
      8-4-4-4-12 lower-case hex digits, version digit 4, variant 8, 9, a or b. */
  predicate IsUuidV4Text(s: string) {
    && |s| == 36
    && (forall i :: 0 <= i < 36 ==> if i == 8 || i == 13 || i == 18 || i == 23 then s[i] == '-' else IsHexDigit(s[i]))
    && s[14] == '4'
    && (s[19] == '8' || s[19] == '9' || s[19] == 'a' || s[19] == 'b')
  }

  type UuidText = s: string | IsUuidV4Text(s) witness "00000000-0000-4000-8000-000000000000"

  /** `uuidv4().slice(0, 6)`: six lower-case hex digits. */
  function MeetingCode(u: UuidText): (code: string)
    ensures |code| == 6
    ensures forall k :: 0 <= k < |code| ==> IsHexDigit(code[k]) && code[k] == u[k]
  {
    u[..6]
  }

  function MeetingPath(code: string): string {
    "/meeting/" + code
  }

  /** The route `/meeting/:code`: a path made of the prefix and one
      non-empty segment yields that segment as the code. */
  function MatchMeetingRoute(path: string): Option<string> {
    if |path| > 9 && path[..9] == "/meeting/" && (forall k :: 9 <= k < |path| ==> path[k] != '/')
    then Some(path[9..]) else None
  }

  /** Navigating to a meeting's path lands on that meeting's page with the
      same code, for every code that is one path segment. */
  lemma RouteRoundTrip(code: string)
    requires code != [] && forall k :: 0 <= k < |code| ==> code[k] != '/'
    ensures MatchMeetingRoute(MeetingPath(code)) == Some(code)
  {
    var p := MeetingPath(code);
    assert p[..9] == "/meeting/" && p[9..] == code;
    assert forall k :: 9 <= k < |p| ==> p[k] == code[k - 9];
  }

  /** Conversely, every path the route accepts is the path of its code. */
  lemma RouteOnlyMeetingPaths(path: string, code: string)
    requires MatchMeetingRoute(path) == Some(code)
    ensures path == MeetingPath(code) && code != []
  {
    assert path == path[..9] + path[9..];
  }

  /** A generated code survives the join box unchanged, is never empty, and
      routes back to itself. */
  lemma GeneratedCodeJoinable(u: UuidText)
    ensures Trim(MeetingCode(u)) == MeetingCode(u) && MeetingCode(u) != []
    ensures MatchMeetingRoute(MeetingPath(MeetingCode(u))) == Some(MeetingCode(u))
  {
    var code := MeetingCode(u);
    assert !IsJsSpace(code[0]) && !IsJsSpace(code[5]);
    TrimUnpadded(code);
    RouteRoundTrip(code);
  }

  class Dashboard {
    var error: string
    var creating: bool
    /** The path navigated to, once the page navigates away. */
    var location: Option<string>
    /** The codes looked up in the `rooms` table, in order. */
    var lookups: seq<string>
    /** The rooms inserted, in order. */
    var inserts: seq<RoomRecord>

    constructor ()
      ensures error == "" && !creating && location.None? && lookups == [] && inserts == []
    {
      error, creating, location, lookups, inserts := "", false, None, [], [];
    }

    /** The Join button. A code that trims to nothing does nothing at all;
        otherwise the trimmed code is looked up, and the page either reports
        "Meeting not found." or navigates to the meeting. `room` is what the
        lookup returns when it is made. */
    method HandleJoin(codeInput: string, room: Lookup<string>)
      modifies this`error, this`location, this`lookups
      ensures var code := Trim(codeInput);
                && (code == [] ==> error == old(error) && location == old(location) && lookups == old(lookups))
                && (code != [] ==> lookups == old(lookups) + [code])
                && (code != [] && room.Missing() ==> error == "Meeting not found." && location == old(location))
                && (code != [] && !room.Missing() ==> location == Some(MeetingPath(code)) && error == old(error))
    {
      var code := Trim(codeInput);
      if code == [] {
        return;
      }
      lookups := lookups + [code];
      if room.Missing() {
        error := "Meeting not found.";
      } else {
        location := Some(MeetingPath(code));
      }
    }

    /** The Create button, up to the identity lookup: mark creation in
        progress and clear the error shown. */
    method BeginCreate()
      modifies this`creating, this`error
      ensures creating && error == ""
    {
      creating := true;
      error := "";
    }

    /** The identity lookup returned: without a user, report it and end the
        creation; with one, insert a room under a code cut from a fresh UUID,
        created by that user, and return the code. */
    method CreateForUser(user: Option<string>, uuid: UuidText) returns (code: Option<string>)
      modifies this`creating, this`error, this`inserts
      ensures user.None? ==>
                error == "User not authenticated" && !creating && inserts == old(inserts) && code.None?
      ensures user.Some? ==>
                && code == Some(MeetingCode(uuid))
                && inserts == old(inserts) + [RoomRecord(MeetingCode(uuid), user.value)]
                && error == old(error) && creating == old(creating)
    {
      if user.None? {
        error := "User not authenticated";
        creating := false;
        return None;
      }
      var meetingCode := MeetingCode(uuid);
      inserts := inserts + [RoomRecord(meetingCode, user.value)];
      code := Some(meetingCode);
    }

    /** The insert returned: creation ends whatever the outcome; a failed
        insert is reported, a successful one navigates to the new meeting. */
    method FinishCreate(code: string, insertFailed: bool)
      modifies this`creating, this`error, this`location
      ensures !creating
      ensures insertFailed ==> error == "Failed to create meeting." && location == old(location)
      ensures !insertFailed ==> location == Some(MeetingPath(code)) && error == old(error)
    {
      creating := false;
      if insertFailed {
        error := "Failed to create meeting.";
      } else {
        location := Some(MeetingPath(code));
      }
    }

    /** The whole Create handler. It always ends with `creating` false; the
        room it inserts, if any, carries a six-digit code and the user as
        creator; success clears the error and navigates to the new meeting. */
    method HandleCreate(user: Option<string>, uuid: UuidText, insertFailed: bool)
      modifies this`creating, this`error, this`inserts, this`location
      ensures !creating
      ensures user.None? ==>
                error == "User not authenticated" && inserts == old(inserts) && location == old(location)
      ensures user.Some? ==> inserts == old(inserts) + [RoomRecord(MeetingCode(uuid), user.value)]
      ensures user.Some? && insertFailed ==> error == "Failed to create meeting." && location == old(location)
      ensures user.Some? && !insertFailed ==> error == "" && location == Some(MeetingPath(MeetingCode(uuid)))
    {
      BeginCreate();
      var code := CreateForUser(user, uuid);
      if code.Some? {
        FinishCreate(code.value, insertFailed);
      }
    }
  }
}
