/** Sending the Originate action and handling everything the manager answers to it. */
module Originating {
  import opened Prelude
  import opened CallStorage
  import opened CallCommands
  import opened CallRuns
  import opened EventHandling
  import V = Validation

  /** What came back from `send_action`, already a list. */
  datatype Reply =
    | AckTimeout
    | ConnectionLost(text: string)
    | SendError
    | Messages(messages: seq<Message>)

  datatype OriginateError =
    | NotConnected | TimedOut | Connection(text: string) | SendFailed | NoReply
    | Refused(reason: Option<string>)

  /** The headers of the action; the channel variables travel in one of them. */
  datatype OriginateAction = OriginateAction(
    actionId: string, channel: string, context: string, exten: string, priority: string,
    callerId: string, timeoutMillis: int, async: bool, variable: string)

  function Clamp(repeat: int): (r: nat)
    ensures 1 <= r <= 3 && (1 <= repeat <= 3 ==> r == repeat)
    ensures (repeat < 1 ==> r == 1) && (repeat > 3 ==> r == 3)
  {
    if repeat < 1 then 1 else if repeat > 3 then 3 else repeat
  }

  // ----- The variables in one header -----

  function CodeSetting(code: string): string {
    "OTP_CODE=" + code
  }

  function RepeatSetting(repeat: nat): string {
    "OTP_REPEAT=" + Render(repeat)
  }

  function RequestSetting(id: Id): string {
    "OTP_REQUEST_ID=" + id
  }

  function VariableHeader(code: string, repeat: nat, id: Id): string {
    CodeSetting(code) + [','] + (RepeatSetting(repeat) + [','] + RequestSetting(id))
  }

  lemma HeaderText(code: string, repeat: nat, id: Id)
    ensures VariableHeader(code, repeat, id) ==
            "OTP_CODE=" + code + ",OTP_REPEAT=" + Render(repeat) + ",OTP_REQUEST_ID=" + id
  {
    assert [','] + "OTP_REPEAT=" == ",OTP_REPEAT=" && [','] + "OTP_REQUEST_ID=" == ",OTP_REQUEST_ID=";
  }

  /** Parts read so far, and one more character. */
  function Extended(parts: seq<string>, c: char): seq<string>
    requires |parts| >= 1
  {
    if c == ',' then parts + [""] else parts[..|parts| - 1] + [parts[|parts| - 1] + [c]]
  }

  /** The parts of a text between commas. */
  function Parts(s: string): (parts: seq<string>)
    ensures |parts| >= 1 && forall i :: 0 <= i < |parts| ==> ',' !in parts[i]
  {
    if s == "" then [""] else Extended(Parts(s[..|s| - 1]), s[|s| - 1])
  }

  lemma ExtendedRight(parts: seq<string>, more: seq<string>, c: char)
    requires |more| >= 1
    ensures Extended(parts + more, c) == parts + Extended(more, c)
  {
    assert (parts + more)[..|parts + more| - 1] == parts + more[..|more| - 1];
  }

  lemma PartsSnoc(s: string, c: char)
    ensures Parts(s + [c]) == Extended(Parts(s), c)
  {
    assert (s + [c])[..|s|] == s;
  }

  lemma PartsJoinSnoc(before: seq<string>, joined: string, front: string, c: char)
    requires Parts(joined) == before + Parts(front)
    ensures Parts(joined + [c]) == before + Parts(front + [c])
  {
    PartsSnoc(joined, c);
    PartsSnoc(front, c);
    ExtendedRight(before, Parts(front), c);
  }

  lemma LastApart(start: string, b: string)
    requires b != ""
    ensures b == b[..|b| - 1] + [b[|b| - 1]]
    ensures start + b == start + b[..|b| - 1] + [b[|b| - 1]]
  {
  }

  lemma {:induction false} PartsJoin(a: string, b: string)
    ensures Parts(a + [','] + b) == Parts(a) + Parts(b)
  {
    var start := a + [','];
    if b == "" {
      PartsSnoc(a, ',');
      assert start + b == start;
    } else {
      PartsJoin(a, b[..|b| - 1]);
      PartsJoinSnoc(Parts(a), start + b[..|b| - 1], b[..|b| - 1], b[|b| - 1]);
      LastApart(start, b);
    }
  }

  /** A text is its own only part exactly when it has no comma. */
  lemma {:induction false} PartsWholeIff(s: string)
    ensures Parts(s) == [s] <==> ',' !in s
  {
    if s != "" && ',' !in s {
      var front, c := s[..|s| - 1], s[|s| - 1];
      assert c in s && s == front + [c];
      PartsWholeIff(front);
    }
    if Parts(s) == [s] {
      assert ',' !in Parts(s)[0];
    }
  }

  lemma RenderHasNoComma(n: nat)
    ensures ',' !in Render(n)
  {
    RenderIsDecimal(n);
  }

  lemma CommaInSetting(name: string, value: string)
    requires ',' !in name
    ensures ',' in name + value <==> ',' in value
  {
    if ',' in value {
      var i :| 0 <= i < |value| && value[i] == ',';
      assert (name + value)[|name| + i] == ',';
    }
  }

  lemma HeaderParts(code: string, repeat: nat, id: Id)
    requires ',' !in id
    ensures Parts(VariableHeader(code, repeat, id)) ==
            Parts(CodeSetting(code)) + [RepeatSetting(repeat), RequestSetting(id)]
  {
    var a, b, c := CodeSetting(code), RepeatSetting(repeat), RequestSetting(id);
    assert Parts(b) == [b] by {
      RenderHasNoComma(repeat);
      CommaInSetting("OTP_REPEAT=", Render(repeat));
      PartsWholeIff(b);
    }
    assert Parts(c) == [c] by {
      CommaInSetting("OTP_REQUEST_ID=", id);
      PartsWholeIff(c);
    }
    PartsJoin(a, b + [','] + c);
    PartsJoin(b, c);
    assert [b] + [c] == [b, c];
  }

  lemma SameFront(parts: seq<string>, first: string, rest: seq<string>)
    ensures parts + rest == [first] + rest <==> parts == [first]
  {
    if parts + rest == [first] + rest {
      assert |parts| == 1 && (parts + rest)[0] == parts[0];
    }
  }

  /** The header splits back into the three settings it was made of if and only if the code has no
      comma. A request identifier, being a UUID, has none. */
  lemma HeaderSplitsBackIff(code: string, repeat: nat, id: Id)
    requires ',' !in id
    ensures Parts(VariableHeader(code, repeat, id)) == [CodeSetting(code), RepeatSetting(repeat), RequestSetting(id)]
            <==> ',' !in code
  {
    var rest := [RepeatSetting(repeat), RequestSetting(id)];
    HeaderParts(code, repeat, id);
    SameFront(Parts(CodeSetting(code)), CodeSetting(code), rest);
    assert [CodeSetting(code), RepeatSetting(repeat), RequestSetting(id)] == [CodeSetting(code)] + rest;
    PartsWholeIff(CodeSetting(code));
    CommaInSetting("OTP_CODE=", code);
  }

  /** The value a variable ends up with: later settings replace earlier ones. */
  function Value(parts: seq<string>, name: string): Option<string> {
    if parts == [] then None
    else
      var last := parts[|parts| - 1];
      if name + "=" <= last then Some(last[|name| + 1..]) else Value(parts[..|parts| - 1], name)
  }

  lemma ValueSnoc(parts: seq<string>, last: string, name: string)
    ensures Value(parts + [last], name) ==
            if name + "=" <= last then Some(last[|name| + 1..]) else Value(parts, name)
  {
    assert (parts + [last])[..|parts|] == parts;
  }

  lemma ValueOfThree(a: string, b: string, c: string, name: string)
    ensures Value([a, b, c], name) ==
            if name + "=" <= c then Some(c[|name| + 1..])
            else if name + "=" <= b then Some(b[|name| + 1..])
            else if name + "=" <= a then Some(a[|name| + 1..]) else None
  {
    ValueSnoc([a, b], c, name);
    ValueSnoc([a], b, name);
    ValueSnoc([], a, name);
    assert [a, b, c] == [a, b] + [c] && [a, b] == [a] + [b] && [a] == [] + [a];
  }

  lemma ValuesOfSettings(code: string, repeat: nat, id: Id)
    ensures var settings := [CodeSetting(code), RepeatSetting(repeat), RequestSetting(id)];
            && Value(settings, "OTP_CODE") == Some(code)
            && Value(settings, "OTP_REPEAT") == Some(Render(repeat))
            && Value(settings, "OTP_REQUEST_ID") == Some(id)
  {
    var a, b, c := CodeSetting(code), RepeatSetting(repeat), RequestSetting(id);
    assert "OTP_CODE" + "=" == "OTP_CODE=" && "OTP_REPEAT" + "=" == "OTP_REPEAT=";
    assert "OTP_REQUEST_ID" + "=" == "OTP_REQUEST_ID=";
    assert b[4] == "OTP_REPEAT="[4] == 'R' && c[4] == "OTP_REQUEST_ID="[4] == 'R' && "OTP_CODE="[4] == 'C';
    assert c[6] == "OTP_REQUEST_ID="[6] == 'Q' && "OTP_REPEAT="[6] == 'P';
    assert a[|"OTP_CODE"| + 1..] == code && b[|"OTP_REPEAT"| + 1..] == Render(repeat);
    assert c[|"OTP_REQUEST_ID"| + 1..] == id;
    assert !("OTP_CODE=" <= b) && !("OTP_CODE=" <= c) && !("OTP_REPEAT=" <= c);
    ValueOfThree(a, b, c, "OTP_CODE");
    ValueOfThree(a, b, c, "OTP_REPEAT");
    ValueOfThree(a, b, c, "OTP_REQUEST_ID");
  }

  lemma {:induction false} ValueIsFromAPart(parts: seq<string>, name: string)
    requires forall i :: 0 <= i < |parts| ==> ',' !in parts[i]
    ensures Value(parts, name).Some? ==> ',' !in Value(parts, name).value
  {
    if parts != [] && !(name + "=" <= parts[|parts| - 1]) {
      ValueIsFromAPart(parts[..|parts| - 1], name);
    }
  }

  // ----- Replies and responses -----

  predicate Acknowledged(reply: Reply) {
    reply.Messages? && reply.messages != [] && Get(reply.messages[0], "Response") == Some("Success")
  }

  /** What `originate` returns: None when the action was accepted. */
  function OutcomeOf(connected: bool, reply: Reply): Option<OriginateError> {
    if !connected then Some(NotConnected)
    else
      match reply
      case AckTimeout => Some(TimedOut)
      case ConnectionLost(text) => Some(Connection(text))
      case SendError => Some(SendFailed)
      case Messages(ms) =>
        if ms == [] then Some(NoReply)
        else if Acknowledged(reply) then None
        else Some(Refused(Truthy(ms[0], "Message")))
  }

  /** The responses a reply makes the originator hand on. */
  function HandedOn(connected: bool, reply: Reply, now: Time): seq<Command> {
    if connected && Acknowledged(reply) then Forwarded(reply.messages[1..], now) else []
  }

  /** The responses among the messages after the acknowledgment, as the handler reads them. */
  function Forwarded(messages: seq<Message>, now: Time): seq<Command> {
    if messages == [] then []
    else
      var before := Forwarded(messages[..|messages| - 1], now);
      var m := messages[|messages| - 1];
      if Get(m, "Event") == Some("OriginateResponse") then before + [DecodeResponse(m, now)] else before
  }

  /** The commands of a list take one state to the other. */
  ghost predicate Leads(db: Db, cs: seq<Command>, db': Db) {
    exists dbs :: Execution(dbs, cs) && dbs[0] == db && dbs[|cs|] == db'
  }

  lemma LeadsNowhere(db: Db)
    ensures Leads(db, [], db)
  {
    assert Execution([db], []);
  }

  lemma LeadsSnoc(db: Db, cs: seq<Command>, db': Db, c: Command, db'': Db)
    requires Leads(db, cs, db') && Next(db', c, db'')
    ensures Leads(db, cs + [c], db'')
  {
    var dbs :| Execution(dbs, cs) && dbs[0] == db && dbs[|cs|] == db';
    ExecutionSnoc(dbs, cs, c, db'');
    assert (dbs + [db''])[0] == db && (dbs + [db''])[|cs + [c]|] == db'';
  }

  lemma {:induction false} LeadsConcat(db: Db, cs: seq<Command>, db': Db, more: seq<Command>, db'': Db)
    requires Leads(db, cs, db') && Leads(db', more, db'')
    ensures Leads(db, cs + more, db'')
  {
    if more == [] {
      assert cs + more == cs;
    } else {
      var dbs :| Execution(dbs, more) && dbs[0] == db' && dbs[|more|] == db'';
      var n := |more| - 1;
      ExecutionFront(dbs, more);
      assert Leads(db', more[..n], dbs[n]);
      LeadsConcat(db, cs, db', more[..n], dbs[n]);
      LeadsSnoc(db, cs + more[..n], dbs[n], more[n], db'');
      assert cs + more == cs + more[..n] + [more[n]];
    }
  }

  lemma ForwardedSnoc(messages: seq<Message>, m: Message, now: Time)
    ensures Forwarded(messages + [m], now) ==
            Forwarded(messages, now) +
            if "Event" in m && m["Event"] == "OriginateResponse" then [DecodeResponse(m, now)] else []
  {
    assert (messages + [m])[..|messages|] == messages;
  }

  lemma SnocApart(messages: seq<Message>, more: seq<Message>)
    requires more != []
    ensures messages + more == messages + more[..|more| - 1] + [more[|more| - 1]]
    ensures more == more[..|more| - 1] + [more[|more| - 1]]
  {
  }

  /** What is handed on of some messages, and then of more, is handed on of them together; of one
      message it is the response it holds, if it is one. */
  lemma {:induction false} ForwardedInOrder(messages: seq<Message>, more: seq<Message>, m: Message, now: Time)
    ensures Forwarded(messages + more, now) == Forwarded(messages, now) + Forwarded(more, now)
    ensures Forwarded([m], now) ==
            if "Event" in m && m["Event"] == "OriginateResponse" then [DecodeResponse(m, now)] else []
  {
    ForwardedSnoc([], m, now);
    assert [] + [m] == [m];
    if more == [] {
      assert messages + more == messages;
    } else {
      var front, last := more[..|more| - 1], more[|more| - 1];
      ForwardedInOrder(messages, front, m, now);
      ForwardedSnoc(messages + front, last, now);
      ForwardedSnoc(front, last, now);
      SnocApart(messages, more);
    }
  }

  /** The acknowledgment itself is not handed on, and nothing is without one. */
  lemma HandedOnAfterAck(connected: bool, ack: Message, rest: seq<Message>, now: Time)
    ensures HandedOn(connected, Messages([ack] + rest), now) ==
            if connected && "Response" in ack && ack["Response"] == "Success" then Forwarded(rest, now) else []
    ensures HandedOn(connected, Messages([]), now) == []
  {
    assert ([ack] + rest)[1..] == rest;
  }

  /** A duplicate of a response handled right after it, such as the event and its forwarded copy,
      changes nothing in the row that the first did not, apart from its update time. */
  lemma DuplicateResponseIsHarmless(v: CallView, id: Id, response: string, reason: string, via: Option<string>,
                                    at: Time, at': Time)
    requires v.row.Some?
    ensures var once := Act(v, id, OriginateResponse(id, response, reason, via, at));
            var twice := Act(once, id, OriginateResponse(id, response, reason, via, at'));
            once.row.Some? && twice.row.Some?
            && twice.row.value.(updatedAt := once.row.value.updatedAt) == once.row.value
  {
  }

  predicate SameResponse(c: Command, c': Command) {
    c.OriginateResponse? && c'.OriginateResponse? && c.id == c'.id && c.response == c'.response && c.reason == c'.reason
  }

  lemma CopySteps(dbs: seq<Db>, cs: seq<Command>, k: nat)
    requires Execution(dbs, cs) && k < |cs| && cs[k].OriginateResponse?
    requires cs[k].id in dbs[k].calls && cs[k].id in dbs[k + 1].calls
    ensures var c, s := cs[k], dbs[k].calls[cs[k].id].status;
            dbs[k + 1].calls[c.id].status ==
            if ResponseFails(c.response, c.reason) && Permits(s, ReasonStatus(c.reason)) then ReasonStatus(c.reason)
            else s
  {
    NamedStep(dbs[k], cs[k], dbs[k + 1], cs[k].id);
  }

  /** With anything in between, a second copy of a response changes the status exactly when it is a
      failing one, the status is no longer what the first copy left, and the guard lets the reported
      status back; and then it puts back what the first copy left. */
  lemma SecondCopyChangesIff(dbs: seq<Db>, cs: seq<Command>, i: nat, j: nat)
    requires Execution(dbs, cs) && i < j < |cs| && SameResponse(cs[i], cs[j])
    requires forall k :: i <= k <= j + 1 ==> cs[i].id in dbs[k].calls
    ensures var first, now, s := dbs[i + 1].calls[cs[i].id].status, dbs[j].calls[cs[i].id].status, cs[i].reason;
            && (dbs[j + 1].calls[cs[i].id].status != now <==>
                ResponseFails(cs[i].response, s) && now != first && Permits(now, ReasonStatus(s)))
            && (dbs[j + 1].calls[cs[i].id].status != now ==> dbs[j + 1].calls[cs[i].id].status == first)
  {
    CopySteps(dbs, cs, i);
    CopySteps(dbs, cs, j);
    if IsTerminal(dbs[i + 1].calls[cs[i].id].status) {
      ClosedAlong(dbs, cs, cs[i].id, i + 1, j);
    }
  }

  /** A call reported busy, completed by a playback event, is busy again after the forwarded copy of
      its response. */
  lemma SecondCopyCanUndoCompletion()
    ensures exists dbs: seq<Db>, cs: seq<Command> :: Execution(dbs, cs) && dbs[0] == Db(map[], []) && |cs| == 4
              && SameResponse(cs[1], cs[3]) && cs[2].PlaybackDone?
              && StatusOf(dbs[2], "r") == Some(Busy) && StatusOf(dbs[3], "r") == Some(Completed)
              && StatusOf(dbs[4], "r") == Some(Busy)
  {
    var start := Insert("r", "09123456789", "1234", None, 0.0);
    var copy := OriginateResponse("r", "Failure", "5", None, 1.0);
    var done := PlaybackDone("r", 2.0);
    var db0 := Db(map[], []);
    var db1 := CreateCall(db0, "r", "09123456789", "1234", None, 0.0);
    var db2 := OnResponse(db1, "r", "Failure", "5", None, 1.0);
    var db3 := OnPlayback(db2, "r", Completed, PlaybackCompleted, 2.0);
    var db4 := OnResponse(db3, "r", "Failure", "5", None, 1.0);
    assert Next(db0, start, db1) && Next(db1, copy, db2);
    assert Next(db2, done, db3) && Next(db3, copy, db4);
    assert Execution([db0, db1, db2, db3, db4], [start, copy, done, copy]);
  }

  /** The action the manager is sent. */
  function ActionFor(trunk: string, callerId: string, context: string, requestId: Id, mobile: string, code: string,
                     repeat: int, timeout: int): OriginateAction
  {
    OriginateAction(
      ACTION_ID_PREFIX + requestId, "SIP/" + trunk + "/" + V.Sanitize(mobile), context, "s", "1", callerId,
      timeout * 1000, true, VariableHeader(V.Sanitize(code), Clamp(repeat), requestId))
  }

  /** Header by header, the action. */
  lemma ActionForIs(trunk: string, callerId: string, context: string, requestId: Id, mobile: string, code: string,
                    repeat: int, timeout: int)
    ensures ActionFor(trunk, callerId, context, requestId, mobile, code, repeat, timeout) ==
            OriginateAction(
              "otp-" + requestId, "SIP/" + trunk + "/" + V.Sanitize(mobile), context, "s", "1", callerId,
              1000 * timeout, true,
              "OTP_CODE=" + V.Sanitize(code) + ",OTP_REPEAT=" + Render(Clamp(repeat)) + ",OTP_REQUEST_ID=" + requestId)
  {
    HeaderText(V.Sanitize(code), Clamp(repeat), requestId);
  }

  class CallOriginator {
    const trunk: string
    const callerId: string
    const useSystemDigits: bool

    constructor (trunk: string, callerId: string, useSystemDigits: bool)
      ensures this.trunk == V.Sanitize(trunk) && this.callerId == V.Sanitize(callerId)
      ensures this.useSystemDigits == useSystemDigits
    {
      this.trunk, this.callerId, this.useSystemDigits := V.Sanitize(trunk), V.Sanitize(callerId), useSystemDigits;
    }

    function BuildContext(): string {
      if useSystemDigits then "otp-playback" else "otp-playback-custom"
    }

    /** `sent` is the action handed to the manager, if it was connected. */
    method Originate(handler: EventHandler?, connected: bool, requestId: Id, mobile: string, code: string,
                     repeat: int, timeout: int, reply: Reply, now: Time)
      returns (error: Option<OriginateError>, sent: Option<OriginateAction>)
      modifies if handler != null then {handler.store} else {}
      ensures error == OutcomeOf(connected, reply)
      ensures error.None? <==>
                && connected && reply.Messages? && reply.messages != []
                && "Response" in reply.messages[0] && reply.messages[0]["Response"] == "Success"
      ensures !connected ==> error == Some(NotConnected)
      ensures connected && reply.AckTimeout? ==> error == Some(TimedOut)
      ensures connected && reply.ConnectionLost? ==> error == Some(Connection(reply.text))
      ensures connected && reply.SendError? ==> error == Some(SendFailed)
      ensures connected && reply == Messages([]) ==> error == Some(NoReply)
      ensures connected && reply.Messages? && reply.messages != [] && error.Some? ==>
                error == Some(Refused(Truthy(reply.messages[0], "Message")))
      ensures sent == if connected
                      then Some(ActionFor(trunk, callerId, BuildContext(), requestId, mobile, code, repeat, timeout))
                      else None
      ensures sent.Some? ==>
                && ExtractRequestId(Some(sent.value.actionId)) == Some(requestId)
                && sent.value.actionId == "otp-" + requestId
                && sent.value.channel == "SIP/" + trunk + "/" + V.Sanitize(mobile)
                && sent.value.context == (if useSystemDigits then "otp-playback" else "otp-playback-custom")
                && sent.value.exten == "s" && sent.value.priority == "1" && sent.value.async
                && sent.value.callerId == callerId && sent.value.timeoutMillis == timeout * 1000
                && sent.value.variable ==
                   "OTP_CODE=" + V.Sanitize(code) +
                   ",OTP_REPEAT=" + Render(Clamp(repeat)) + ",OTP_REQUEST_ID=" + requestId
                && (',' !in requestId ==>
                      (Parts(sent.value.variable) ==
                         [CodeSetting(V.Sanitize(code)), RepeatSetting(Clamp(repeat)), RequestSetting(requestId)]
                       <==> ',' !in V.Sanitize(code)))
      ensures handler != null ==>
                Leads(old(handler.store.Contents()), HandedOn(connected, reply, now), handler.store.Contents())
    {
      if handler != null {
        LeadsNowhere(handler.store.Contents());
      }
      var dialled := V.Sanitize(mobile);
      var digits := V.Sanitize(code);
      var count := Clamp(repeat);
      if !connected {
        return Some(NotConnected), None;
      }
      ActionIdRoundTrip(ACTION_ID_PREFIX + requestId, requestId);
      if ',' !in requestId {
        HeaderSplitsBackIff(digits, count, requestId);
      }
      HeaderText(digits, count, requestId);
      sent := Some(OriginateAction(ACTION_ID_PREFIX + requestId, "SIP/" + trunk + "/" + dialled, BuildContext(),
                                   "s", "1", callerId, timeout * 1000, true,
                                   VariableHeader(digits, count, requestId)));
      match reply {
        case AckTimeout => return Some(TimedOut), sent;
        case ConnectionLost(text) => return Some(Connection(text)), sent;
        case SendError => return Some(SendFailed), sent;
        case Messages(_) =>
      }
      var messages := reply.messages;
      if messages == [] {
        return Some(NoReply), sent;
      }
      if Get(messages[0], "Response") != Some("Success") {
        return Some(Refused(Truthy(messages[0], "Message"))), sent;
      }
      var tail := messages[1..];
      for k := 0 to |tail|
        invariant handler != null ==>
                    Leads(old(handler.store.Contents()), Forwarded(tail[..k], now), handler.store.Contents())
      {
        assert tail[..k + 1][..k] == tail[..k];
        if Get(tail[k], "Event") == Some("OriginateResponse") && handler != null {
          ghost var before := handler.store.Contents();
          handler.OnOriginateResponse(tail[k], now);
          LeadsSnoc(old(handler.store.Contents()), Forwarded(tail[..k], now), before,
                    DecodeResponse(tail[k], now), handler.store.Contents());
        }
      }
      assert tail[..|tail|] == tail;
      return None, sent;
    }
  }
}
