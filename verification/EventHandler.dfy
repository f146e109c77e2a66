/** The AMI event handlers: what they read from a message, and what they then do to the store. */
module EventHandling {
  import opened Prelude
  import opened CallStorage
  import opened CallCommands
  import opened CallRuns

  /** An AMI message: header names and their values. */
  type Message = map<string, string>

  function Get(m: Message, key: string): Option<string> {
    if key in m then Some(m[key]) else None
  }

  function GetOr(m: Message, key: string, default: string): string {
    if key in m then m[key] else default
  }

  /** A header that is present and not empty: what Python's truth test lets through. */
  function Truthy(m: Message, key: string): Option<string> {
    if key in m && m[key] != "" then Some(m[key]) else None
  }

  function FirstTruthy(m: Message, key: string, alternative: string): Option<string> {
    if Truthy(m, key).Some? then Truthy(m, key) else Truthy(m, alternative)
  }

  const ACTION_ID_PREFIX := "otp-"

  function ExtractRequestId(actionId: Option<string>): Option<Id> {
    if actionId.None? || actionId.value == "" then None
    else if ACTION_ID_PREFIX <= actionId.value then Some(actionId.value[|ACTION_ID_PREFIX|..])
    else None
  }

  function Lower(s: string): string {
    seq(|s|, i requires 0 <= i < |s| => if 'A' <= s[i] <= 'Z' then (s[i] as int + 32) as char else s[i])
  }

  // ----- The cause header as an integer -----

  predicate Digits(s: string) {
    forall i :: 0 <= i < |s| ==> '0' <= s[i] <= '9'
  }

  function Decimal(s: string): int
    requires Digits(s)
  {
    if s == "" then 0 else 10 * Decimal(s[..|s| - 1]) + (s[|s| - 1] as int - '0' as int)
  }

  function Unpadded(s: string): string {
    if s != "" && s[0] in {' ', '\t'} then Unpadded(s[1..])
    else if s != "" && s[|s| - 1] in {' ', '\t'} then Unpadded(s[..|s| - 1])
    else s
  }

  /** `int(raw)`, or 0 for text that is no integer. */
  function ParseCause(raw: string): int {
    var s := Unpadded(raw);
    if s == "" then 0
    else if s[0] in {'+', '-'} then
      if s[1..] != "" && Digits(s[1..]) then (if s[0] == '-' then -Decimal(s[1..]) else Decimal(s[1..])) else 0
    else if Digits(s) then Decimal(s)
    else 0
  }

  /** A cause value as Asterisk writes it in a header. */
  function Render(n: nat): string {
    var digit := ['0' + (n % 10) as char];
    if n < 10 then digit else Render(n / 10) + digit
  }

  lemma {:induction false} RenderIsDecimal(n: nat)
    ensures Render(n) != "" && Digits(Render(n)) && Decimal(Render(n)) == n
  {
    var digit := '0' + (n % 10) as char;
    assert digit as int - '0' as int == n % 10;
    if n < 10 {
      assert Render(n)[..0] == "";
    } else {
      RenderIsDecimal(n / 10);
      assert Render(n)[..|Render(n)| - 1] == Render(n / 10);
    }
  }

  /** Every cause value written in decimal is read back as itself. */
  lemma CauseRoundTrip(n: nat)
    ensures ParseCause(Render(n)) == n
  {
    RenderIsDecimal(n);
    var s := Render(n);
    assert '0' <= s[0] <= '9' && '0' <= s[|s| - 1] <= '9';
    assert Unpadded(s) == s;
  }

  lemma RenderedIsBare(n: nat)
    ensures var s := Render(n); s != "" && Digits(s) && '0' <= s[0] <= '9' && '0' <= s[|s| - 1] <= '9'
    ensures Unpadded(Render(n)) == Render(n)
  {
    RenderIsDecimal(n);
  }

  /** So is a signed one. */
  lemma SignedCause(n: nat)
    ensures ParseCause("-" + Render(n)) + n == 0 && ParseCause("+" + Render(n)) == n
  {
    RenderIsDecimal(n);
    SignedIsRead(Render(n), '-');
    SignedIsRead(Render(n), '+');
  }

  lemma SignedIsRead(s: string, sign: char)
    requires s != "" && Digits(s) && sign in {'+', '-'}
    ensures ParseCause([sign] + s) == if sign == '-' then -Decimal(s) else Decimal(s)
  {
    var t := [sign] + s;
    assert t[0] == sign && t[1..] == s && t[|t| - 1] == s[|s| - 1];
    assert Unpadded(t) == t;
  }

  /** Padding changes nothing. */
  lemma PaddedCause(n: nat)
    ensures ParseCause(" " + Render(n)) == n && ParseCause(Render(n) + " ") == n
  {
    RenderIsDecimal(n);
    RenderedIsBare(n);
    var s := Render(n);
    assert (" " + s)[1..] == s;
    assert (s + " ")[..|s|] == s && (s + " ")[0] == s[0] && (s + " ")[|s|] == ' ';
  }

  /** Anything else after a number spoils it. */
  lemma SpoiltCause(n: nat, junk: char)
    requires !('0' <= junk <= '9') && junk != ' ' && junk != '\t'
    ensures ParseCause(Render(n) + [junk]) == 0
  {
    RenderedIsBare(n);
    var s := Render(n);
    assert (s + [junk])[|s|] == junk && (s + [junk])[0] == s[0];
    assert Unpadded(s + [junk]) == s + [junk];
  }

  /** A text without a digit is no integer. */
  lemma NoDigitNoCause(raw: string)
    requires forall i :: 0 <= i < |raw| ==> !('0' <= raw[i] <= '9')
    ensures ParseCause(raw) == 0
  {
    UnpaddedIsPart(raw);
    var s := Unpadded(raw);
    if s != "" {
      assert s[0] in raw;
      if |s| > 1 {
        assert s[1] in raw && s[1..][0] == s[1];
      }
    }
  }

  lemma {:induction false} UnpaddedIsPart(s: string)
    ensures forall c :: c in Unpadded(s) ==> c in s
  {
    if s != "" && s[0] in {' ', '\t'} {
      UnpaddedIsPart(s[1..]);
    } else if s != "" && s[|s| - 1] in {' ', '\t'} {
      UnpaddedIsPart(s[..|s| - 1]);
    }
  }

  /** The same text but for the case of ASCII letters. */
  predicate SameButForCase(s: string, lower: string) {
    |s| == |lower| && forall i :: 0 <= i < |s| ==> s[i] == lower[i] || s[i] as int + 32 == lower[i] as int
  }

  lemma LowerIff(s: string, lower: string)
    requires forall i :: 0 <= i < |lower| ==> 'a' <= lower[i] <= 'z'
    ensures Lower(s) == lower <==> SameButForCase(s, lower)
  {
    if Lower(s) == lower {
      forall i | 0 <= i < |s| ensures s[i] == lower[i] || s[i] as int + 32 == lower[i] as int {
        assert Lower(s)[i] == lower[i];
      }
    }
  }

  // ----- Messages as commands -----

  function DecodeResponse(m: Message, now: Time): Command {
    match ExtractRequestId(Get(m, "ActionID"))
    case Some(id) =>
      if id == "" then Ignore(now)
      else OriginateResponse(id, GetOr(m, "Response", ""), GetOr(m, "Reason", ""), Get(m, "Channel"), now)
    case None => Ignore(now)
  }

  function DecodeNewState(m: Message, now: Time): Command {
    match Truthy(m, "Channel")
    case Some(channel) =>
      var desc := Lower(GetOr(m, "ChannelStateDesc", ""));
      NewState(channel, if desc == "ringing" then RingingState else if desc == "up" then UpState else OtherState, now)
    case None => Ignore(now)
  }

  function DecodeHangup(m: Message, now: Time): Command {
    match Truthy(m, "Channel")
    case Some(channel) =>
      var raw := match Truthy(m, "Cause") case Some(c) => c case None => "0";
      var text := match FirstTruthy(m, "Cause-txt", "CauseTxt") case Some(t) => t case None => "";
      Hangup(channel, ParseCause(raw), text, now)
    case None => Ignore(now)
  }

  function DecodeUserEvent(m: Message, now: Time): Command {
    match FirstTruthy(m, "RequestID", "Requestid")
    case Some(id) =>
      var name := FirstTruthy(m, "UserEvent", "Userevent");
      if name == Some("OTPCallStart") then CallStart(id, Truthy(m, "Channel"), now)
      else if name == Some("OTPPlaybackStart") then PlaybackStart(id, now)
      else if name == Some("OTPPlaybackComplete") then PlaybackDone(id, now)
      else Ignore(now)
    case None => Ignore(now)
  }

  /** An action id leads back to exactly the request it was made for. */
  lemma ActionIdRoundTrip(actionId: string, id: Id)
    ensures ExtractRequestId(Some(actionId)) == Some(id) <==> actionId == ACTION_ID_PREFIX + id
  {
    if actionId == ACTION_ID_PREFIX + id {
      assert actionId[|ACTION_ID_PREFIX|..] == id;
    }
  }

  // ----- What a message does, apart from how the handlers come to it -----

  /** Nothing changes but the row of one call and the end of the log. */
  ghost predicate OnlyCall(db: Db, id: Id, e: Event, db': Db) {
    && db'.events == db.events + [e] && db'.calls.Keys == db.calls.Keys
    && forall other :: other in db.calls && other != id ==> db'.calls[other] == db.calls[other]
  }

  ghost predicate EndsCall(db: Db, channel: string, cause: int, text: string, now: Time, db': Db) {
    exists found: Option<Id> :: LookedUp(db, channel, found) &&
      match found
      case None => db' == db
      case Some(id) =>
        && OnlyCall(db, id, Event(id, HangupLogged, HangupDetail(cause, text, Some(channel)), now), db')
        && var row, row' := db.calls[id], db'.calls[id];
           if IsTerminal(row.status) then row' == row
           else
             && ClearedAs(row.status, cause, row'.status)
             && row' == row.(status := row'.status, hangupCause := Some(Cleared(cause, text)), updatedAt := now)
  }

  /** The cause a message carries: the number written there, and 0 for none or for no number. */
  ghost predicate CarriesCause(m: Message, cause: int) {
    && ("Cause" !in m || m["Cause"] == "" ==> cause == 0)
    && ("Cause" in m && (forall i :: 0 <= i < |m["Cause"]| ==> !('0' <= m["Cause"][i] <= '9')) ==> cause == 0)
    && forall n: nat :: "Cause" in m && m["Cause"] == Render(n) ==> cause == n
  }

  predicate CarriesText(m: Message, text: string) {
    if "Cause-txt" in m && m["Cause-txt"] != "" then text == m["Cause-txt"]
    else if "CauseTxt" in m && m["CauseTxt"] != "" then text == m["CauseTxt"]
    else text == ""
  }

  /** A hangup logs itself in the call its channel belongs to and, unless that is over, ends it with
      the status of its cause. */
  ghost predicate HangupDone(db: Db, m: Message, now: Time, db': Db) {
    if "Channel" in m && m["Channel"] != "" then
      exists cause: int, text: string :: CarriesCause(m, cause) && CarriesText(m, text)
        && EndsCall(db, m["Channel"], cause, text, now, db')
    else db' == db
  }

  lemma HangupEndsRow(db: Db, id: Id, channel: string, cause: int, text: string, now: Time)
    requires id in db.calls
    ensures var db' := OnHangup(db, Some(id), channel, cause, text, now);
            && OnlyCall(db, id, Event(id, HangupLogged, HangupDetail(cause, text, Some(channel)), now), db')
            && db'.calls[id] ==
                 if IsTerminal(db.calls[id].status) then db.calls[id]
                 else db.calls[id].(status := HangupStatus(db.calls[id].status, cause),
                                    hangupCause := Some(Cleared(cause, text)), updatedAt := now)
  {
  }

  lemma HangupClears(db: Db, channel: string, cause: int, text: string, now: Time, db': Db)
    requires Next(db, Hangup(channel, cause, text, now), db')
    ensures EndsCall(db, channel, cause, text, now, db')
  {
    var found: Option<Id> :| LookedUp(db, channel, found) && db' == OnHangup(db, found, channel, cause, text, now);
    if found.Some? {
      HangupStatusIff(db.calls[found.value].status, cause);
      HangupEndsRow(db, found.value, channel, cause, text, now);
    }
  }

  lemma ParsedCause(m: Message, raw: string)
    requires raw == match Truthy(m, "Cause") case Some(c) => c case None => "0"
    ensures CarriesCause(m, ParseCause(raw))
  {
    CauseRoundTrip(0);
    assert Render(0) == "0";
    if "Cause" in m && forall i :: 0 <= i < |m["Cause"]| ==> !('0' <= m["Cause"][i] <= '9') {
      if m["Cause"] != "" {
        NoDigitNoCause(raw);
      }
    }
    forall n: nat | "Cause" in m && m["Cause"] == Render(n) ensures ParseCause(raw) == n {
      RenderIsDecimal(n);
      CauseRoundTrip(n);
    }
  }

  lemma HangupMessage(db: Db, m: Message, now: Time, db': Db)
    requires Next(db, DecodeHangup(m, now), db')
    ensures HangupDone(db, m, now, db')
  {
    if Truthy(m, "Channel").Some? {
      var raw := match Truthy(m, "Cause") case Some(c) => c case None => "0";
      var text := match FirstTruthy(m, "Cause-txt", "CauseTxt") case Some(t) => t case None => "";
      ParsedCause(m, raw);
      HangupClears(db, m["Channel"], ParseCause(raw), text, now, db');
    }
  }

  ghost predicate Reported(db: Db, id: Id, response: string, reason: string, via: Option<string>, now: Time, db': Db) {
    && OnlyCall(db, id, Event(id, ResponseLogged, ResponseDetail(response, reason, via), now), db')
    && (id in db.calls ==>
          var row, row' := db.calls[id], db'.calls[id];
          if response == "Failure" || reason in {"0", "1", "5", "8"} then
            exists s: Status :: ReportedAs(reason, s)
              && row' == if IsTerminal(row.status) && s == Answered then row
                         else row.(status := s, asteriskReason := Some(reason), updatedAt := now)
          else row' == row)
  }

  /** A response logs itself in the call its action id was made for, and a failing one gives the call
      the status of its reason. */
  ghost predicate ResponseDone(db: Db, m: Message, now: Time, db': Db) {
    var response := if "Response" in m then m["Response"] else "";
    var reason := if "Reason" in m then m["Reason"] else "";
    if "ActionID" in m && "otp-" < m["ActionID"] then
      Reported(db, m["ActionID"][4..], response, reason, Get(m, "Channel"), now, db')
    else db' == db
  }

  lemma ResponseReports(db: Db, id: Id, response: string, reason: string, via: Option<string>, now: Time, db': Db)
    requires Next(db, OriginateResponse(id, response, reason, via, now), db')
    ensures Reported(db, id, response, reason, via, now, db')
  {
    ReasonStatusIff(reason);
  }

  lemma ResponseMessage(db: Db, m: Message, now: Time, db': Db)
    requires Next(db, DecodeResponse(m, now), db')
    ensures ResponseDone(db, m, now, db')
  {
    var response, reason := GetOr(m, "Response", ""), GetOr(m, "Reason", "");
    if "ActionID" in m && "otp-" < m["ActionID"] {
      ResponseReports(db, m["ActionID"][4..], response, reason, Get(m, "Channel"), now, db');
    }
  }

  /** A status written unless the call is over, and an entry in its timeline either way. */
  ghost predicate Entered(db: Db, id: Id, s: Status, bind: Option<string>, e: Event, db': Db) {
    && OnlyCall(db, id, e, db')
    && (id in db.calls ==>
          var row, row' := db.calls[id], db'.calls[id];
          row' == if IsTerminal(row.status) && !IsTerminal(s) then row
                  else row.(status := s, channel := if bind.Some? then bind else row.channel, updatedAt := e.at))
  }

  /** A channel that rings or is up makes the call it belongs to ringing or answered. */
  ghost predicate NewStateDone(db: Db, m: Message, now: Time, db': Db) {
    var desc := if "ChannelStateDesc" in m then m["ChannelStateDesc"] else "";
    if "Channel" in m && m["Channel"] != "" then
      exists found: Option<Id> :: LookedUp(db, m["Channel"], found)
        && var detail := ChannelDetail(Some(m["Channel"]));
           if found.Some? && SameButForCase(desc, "ringing") then
             Entered(db, found.value, Ringing, None, Event(found.value, RingingLogged, detail, now), db')
           else if found.Some? && SameButForCase(desc, "up") then
             Entered(db, found.value, Answered, None, Event(found.value, AnsweredLogged, detail, now), db')
           else db' == db
    else db' == db
  }

  lemma NewStateMessage(db: Db, m: Message, now: Time, db': Db)
    requires Next(db, DecodeNewState(m, now), db')
    ensures NewStateDone(db, m, now, db')
  {
    if Truthy(m, "Channel").Some? {
      var channel, desc := m["Channel"], GetOr(m, "ChannelStateDesc", "");
      var c := DecodeNewState(m, now);
      LowerIff(desc, "ringing");
      LowerIff(desc, "up");
      var found: Option<Id> :| LookedUp(db, channel, found) && db' == OnNewState(db, found, channel, c.state, now);
    }
  }

  function NamedRequest(m: Message): Id {
    if "RequestID" in m && m["RequestID"] != "" then m["RequestID"]
    else if "Requestid" in m then m["Requestid"] else ""
  }

  function NamedEvent(m: Message): string {
    if "UserEvent" in m && m["UserEvent"] != "" then m["UserEvent"]
    else if "Userevent" in m then m["Userevent"] else ""
  }

  /** The announcement answers a call and binds its channel, the start of the playback makes it playing,
      and its completion completes it even when it was over; each is logged. */
  ghost predicate UserEventDone(db: Db, m: Message, now: Time, db': Db) {
    var id, ev := NamedRequest(m), NamedEvent(m);
    if id != "" && ev == "OTPCallStart" then
      if "Channel" in m && m["Channel"] != "" then
        Entered(db, id, Answered, Some(m["Channel"]),
                Event(id, DialplanStarted, ChannelDetail(Some(m["Channel"])), now), db')
      else db' == db.(events := db.events + [Event(id, DialplanStarted, ChannelDetail(None), now)])
    else if id != "" && ev == "OTPPlaybackStart" then
      Entered(db, id, Playing, None, Event(id, PlayingLogged, NoDetail, now), db')
    else if id != "" && ev == "OTPPlaybackComplete" then
      Entered(db, id, Completed, None, Event(id, PlaybackCompleted, NoDetail, now), db')
    else db' == db
  }

  lemma AnnouncementEnters(db: Db, id: Id, channel: string, now: Time)
    ensures Entered(db, id, Answered, Some(channel), Event(id, DialplanStarted, ChannelDetail(Some(channel)), now),
                    OnCallStart(db, id, Some(channel), now))
  {
  }

  lemma PlaybackEnters(db: Db, id: Id, s: Status, kind: Kind, now: Time)
    ensures Entered(db, id, s, None, Event(id, kind, NoDetail, now), OnPlayback(db, id, s, kind, now))
  {
  }

  lemma UserEventMessage(db: Db, m: Message, now: Time, db': Db)
    requires Next(db, DecodeUserEvent(m, now), db')
    ensures UserEventDone(db, m, now, db')
  {
    var id, ev := NamedRequest(m), NamedEvent(m);
    if id != "" && ev == "OTPCallStart" {
      if "Channel" in m && m["Channel"] != "" {
        AnnouncementEnters(db, id, m["Channel"], now);
      }
    } else if id != "" && ev == "OTPPlaybackStart" {
      PlaybackEnters(db, id, Playing, PlayingLogged, now);
    } else if id != "" && ev == "OTPPlaybackComplete" {
      PlaybackEnters(db, id, Completed, PlaybackCompleted, now);
    }
  }

  class EventHandler {
    const store: CallStore

    constructor (store: CallStore)
      ensures this.store == store
    {
      this.store := store;
    }

    method OnOriginateResponse(m: Message, now: Time)
      modifies store
      ensures Next(old(store.Contents()), DecodeResponse(m, now), store.Contents())
    {
      var requestId := ExtractRequestId(Get(m, "ActionID"));
      if requestId == None || requestId == Some("") {
        return;
      }
      var id := requestId.value;
      var response := GetOr(m, "Response", "");
      var reason := GetOr(m, "Reason", "");
      store.RecordEvent(id, ResponseLogged, ResponseDetail(response, reason, Get(m, "Channel")), now);
      if ResponseFails(response, reason) {
        var _ := store.UpdateCallStatus(id, ResponseUpdate(reason), now);
      }
    }

    method OnNewState(m: Message, now: Time)
      modifies store
      ensures Next(old(store.Contents()), DecodeNewState(m, now), store.Contents())
    {
      var channel := Get(m, "Channel");
      if channel == None || channel == Some("") {
        return;
      }
      var found := store.GetCallByChannel(channel.value);
      assert LookedUp(store.Contents(), channel.value, found);
      if found == None {
        return;
      }
      var id := found.value;
      var desc := Lower(GetOr(m, "ChannelStateDesc", ""));
      if desc == "ringing" {
        var _ := store.UpdateCallStatus(id, StatusOnly(Ringing), now);
        store.RecordEvent(id, RingingLogged, ChannelDetail(channel), now);
      } else if desc == "up" {
        var _ := store.UpdateCallStatus(id, StatusOnly(Answered), now);
        store.RecordEvent(id, AnsweredLogged, ChannelDetail(channel), now);
      }
    }

    method OnHangup(m: Message, now: Time)
      modifies store
      ensures Next(old(store.Contents()), DecodeHangup(m, now), store.Contents())
    {
      var channel := Get(m, "Channel");
      if channel == None || channel == Some("") {
        return;
      }
      var found := store.GetCallByChannel(channel.value);
      assert LookedUp(store.Contents(), channel.value, found);
      if found == None {
        return;
      }
      var id := found.value;
      var record := store.calls[id];
      var raw := Truthy(m, "Cause");
      var cause := ParseCause(if raw.Some? then raw.value else "0");
      var text := FirstTruthy(m, "Cause-txt", "CauseTxt");
      var causeText := if text.Some? then text.value else "";
      store.RecordEvent(id, HangupLogged, HangupDetail(cause, causeText, channel), now);
      if IsTerminal(record.status) {
        return;
      }
      var newStatus: Status;
      match CauseStatus(cause) {
        case Some(mapped) => newStatus := mapped;
        case None => newStatus := if record.status in {Answered, Playing} then Completed else Failed;
      }
      var _ := store.UpdateCallStatus(id, StatusOnly(newStatus).(hangupCause := Some(Cleared(cause, causeText))), now);
    }

    method OnUserEvent(m: Message, now: Time)
      modifies store
      ensures Next(old(store.Contents()), DecodeUserEvent(m, now), store.Contents())
    {
      var ev := FirstTruthy(m, "UserEvent", "Userevent");
      var requestId := FirstTruthy(m, "RequestID", "Requestid");
      if requestId == None {
        return;
      }
      var id := requestId.value;
      var channel := Truthy(m, "Channel");
      if ev == Some("OTPCallStart") {
        if channel != None {
          var _ := store.UpdateCallStatus(id, StatusOnly(Answered).(channel := channel), now);
        }
        store.RecordEvent(id, DialplanStarted, ChannelDetail(channel), now);
      } else if ev == Some("OTPPlaybackStart") {
        var _ := store.UpdateCallStatus(id, StatusOnly(Playing), now);
        store.RecordEvent(id, PlayingLogged, NoDetail, now);
      } else if ev == Some("OTPPlaybackComplete") {
        var _ := store.UpdateCallStatus(id, StatusOnly(Completed), now);
        store.RecordEvent(id, PlaybackCompleted, NoDetail, now);
      }
    }
  }
}
