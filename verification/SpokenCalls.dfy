/** From the code a client sends to what is heard on the line, through the action's header and the
    dialplan program it starts. */
module SpokenCalls {
  import opened Prelude
  import opened CallStorage
  import opened EventHandling
  import opened Originating
  import opened Routes
  import D = Dialplan
  import V = Validation

  /** The trace of the program an action starts on a channel, with the variables its header sets. */
  function Played(action: OriginateAction, channel: string): Option<seq<D.Action>> {
    var parts := Parts(action.variable);
    var code, repeat, id := Value(parts, "OTP_CODE"), Value(parts, "OTP_REPEAT"), Value(parts, "OTP_REQUEST_ID");
    if code.None? || repeat.None? || id.None? || repeat.value == "" || !Digits(repeat.value) then None
    else if action.context == "otp-playback" then
      Some(D.SystemScript(code.value, Decimal(repeat.value), id.value, channel))
    else
      Some(D.CustomScript(code.value, Decimal(repeat.value), id.value, channel))
  }

  /** The context names the program, which runs with the variables of the header. */
  lemma PlayedRuns(action: OriginateAction, channel: string)
    requires Played(action, channel).Some?
    ensures var parts, trace := Parts(action.variable), Played(action, channel).value;
            var code, id := Value(parts, "OTP_CODE").value, Value(parts, "OTP_REQUEST_ID").value;
            var repeat := Decimal(Value(parts, "OTP_REPEAT").value);
            if action.context == "otp-playback" then D.SystemRun(trace, code, repeat, id, channel)
            else D.CustomRun(trace, code, repeat, id, channel)
  {
    var parts := Parts(action.variable);
    var code, id := Value(parts, "OTP_CODE").value, Value(parts, "OTP_REQUEST_ID").value;
    var repeat := Decimal(Value(parts, "OTP_REPEAT").value);
    D.SystemPerforms(code, repeat, id, channel);
    D.CustomPerforms(code, repeat, id, channel);
  }

  /** What a listener hears, digit by digit. */
  function Heard(trace: seq<D.Action>): seq<D.Action> {
    D.Spoken(D.Expand(trace))
  }

  function Speech(code: string, repeat: int): seq<D.Action> {
    D.Times(repeat, [D.INTRO] + D.DigitPrompts(code)) + [D.GOODBYE]
  }

  lemma ExpandCustom(code: string, repeat: int, id: Id, channel: string)
    ensures D.Expand(D.CustomScript(code, repeat, id, channel)) == D.CustomScript(code, repeat, id, channel)
  {
    var block := [D.INTRO] + D.DigitPrompts(code) + [D.Wait(1)];
    var rounds := D.Times(repeat, block);
    forall i | 0 <= i < |rounds| ensures !rounds[i].SayDigits? && !rounds[i].SetLanguage? {
      D.TimesMember(repeat, block, rounds[i]);
    }
    D.ExpandPlain(D.CustomScript(code, repeat, id, channel));
  }

  /** Either program, with its variables, speaks their code as often as they say. */
  lemma PlayedIsHeard(action: OriginateAction, channel: string)
    requires Played(action, channel).Some?
    ensures var parts := Parts(action.variable);
            Heard(Played(action, channel).value) ==
            Speech(Value(parts, "OTP_CODE").value, Decimal(Value(parts, "OTP_REPEAT").value))
  {
    var parts := Parts(action.variable);
    var code, repeat := Value(parts, "OTP_CODE").value, Decimal(Value(parts, "OTP_REPEAT").value);
    var id := Value(parts, "OTP_REQUEST_ID").value;
    D.SystemSpeech(code, repeat, id, channel);
    D.CustomSpeech(code, repeat, id, channel);
    ExpandCustom(code, repeat, id, channel);
  }

  function CommaPrompt(): D.Action {
    D.Playback("otp/digits/" + [','])
  }

  lemma PromptsMember(code: string)
    ensures CommaPrompt() in D.DigitPrompts(code) <==> ',' in code
  {
    var prompts := D.DigitPrompts(code);
    forall i | 0 <= i < |code| ensures prompts[i] == CommaPrompt() <==> code[i] == ',' {
      assert prompts[i] == D.Playback("otp/digits/" + [code[i]]);
      assert ("otp/digits/" + [code[i]])[11] == code[i] && ("otp/digits/" + [','])[11] == ',';
    }
    if ',' in code {
      var i :| 0 <= i < |code| && code[i] == ',';
      assert prompts[i] == CommaPrompt();
    }
  }

  /** A comma in a code is a prompt of its speech, which no speech without one has. */
  lemma SpeechHasComma(code: string, repeat: int)
    ensures CommaPrompt() in Speech(code, repeat) <==> repeat > 0 && ',' in code
  {
    assert ("otp/digits/" + [','])[4] == 'd' && "otp/otp-intro"[4] == 'o' && "otp/otp-goodbye"[4] == 'o';
    PromptsMember(code);
    D.TimesMember(repeat, [D.INTRO] + D.DigitPrompts(code), CommaPrompt());
  }

  /** The program the action starts says, place by place, the code as often as asked. */
  ghost predicate Speaks(action: OriginateAction, channel: string, code: string, repeat: nat) {
    Played(action, channel).Some? && D.Says(Heard(Played(action, channel).value), code, repeat)
  }

  /** Who says a code with a comma plays the prompt of a comma. */
  lemma SayingAComma(heard: seq<D.Action>, code: string, repeat: nat)
    requires D.Says(heard, code, repeat) && repeat > 0 && ',' in code
    ensures CommaPrompt() in heard
  {
    var i :| 0 <= i < |code| && code[i] == ',';
    assert D.SaysRound(heard, code, 0);
    assert heard[0 * (|code| + 1) + 1 + i] == CommaPrompt();
  }

  lemma SpeaksWithoutComma(action: OriginateAction, channel: string, code: string, repeat: nat, id: Id)
    requires action.variable == VariableHeader(code, repeat, id) && ',' !in id && ',' !in code
    ensures Speaks(action, channel, code, repeat)
    ensures D.UserEvents(Played(action, channel).value) ==
            [D.StartEvent(id, channel), D.PlayingEvent(id), D.DoneEvent(id)]
  {
    HeaderSplitsBackIff(code, repeat, id);
    ValuesOfSettings(code, repeat, id);
    RenderIsDecimal(repeat);
    PlayedIsHeard(action, channel);
    D.SpeechSays(code, repeat);
    D.EventsInOrder(code, repeat, id, channel);
  }

  lemma CommaIsNeverSpoken(action: OriginateAction, channel: string)
    requires Played(action, channel).Some?
    ensures CommaPrompt() !in Heard(Played(action, channel).value)
  {
    var parts := Parts(action.variable);
    PlayedIsHeard(action, channel);
    ValueIsFromAPart(parts, "OTP_CODE");
    SpeechHasComma(Value(parts, "OTP_CODE").value, Decimal(Value(parts, "OTP_REPEAT").value));
  }

  /** Whichever program is selected, a call speaks the sanitised code it was placed with, as often as
      asked, if and only if that code has no comma; and then its events name the request. */
  lemma CallSpeaksItsCodeIff(trunk: string, callerId: string, context: string, id: Id, mobile: string, code: string,
                             repeat: int, timeout: int, channel: string)
    requires ',' !in id
    ensures var action := ActionFor(trunk, callerId, context, id, mobile, code, repeat, timeout);
            && (Speaks(action, channel, V.Sanitize(code), Clamp(repeat)) <==> ',' !in V.Sanitize(code))
            && (',' !in V.Sanitize(code) ==>
                  D.UserEvents(Played(action, channel).value) ==
                  [D.StartEvent(id, channel), D.PlayingEvent(id), D.DoneEvent(id)])
  {
    var action := ActionFor(trunk, callerId, context, id, mobile, code, repeat, timeout);
    if ',' !in V.Sanitize(code) {
      SpeaksWithoutComma(action, channel, V.Sanitize(code), Clamp(repeat), id);
    } else if Played(action, channel).Some? {
      CommaIsNeverSpoken(action, channel);
      if Speaks(action, channel, V.Sanitize(code), Clamp(repeat)) {
        SayingAComma(Heard(Played(action, channel).value), V.Sanitize(code), Clamp(repeat));
      }
    }
  }

  lemma ValidCodeIsPlain(rawCode: string, cc: V.Unicode)
    requires V.ValidCode(rawCode, cc)
    ensures V.Sanitize(V.Strip(rawCode, cc)) == V.Strip(rawCode, cc) && ',' !in V.Strip(rawCode, cc)
  {
    V.SanitizeRemovesDangerous(V.Strip(rawCode, cc));
  }

  /** End to end, a validated request is heard as it was made: its code, stripped and otherwise
      unchanged, as many times as asked. */
  lemma AdmittedCallSpeaksItsCode(cc: V.Unicode, rawCode: string, repeat: int, trunk: string, callerId: string,
                                  context: string, id: Id, mobile: string, timeout: int, channel: string)
    requires V.ValidCode(rawCode, cc) && V.ValidRepeat(repeat) && ',' !in id
    ensures Speaks(ActionFor(trunk, callerId, context, id, mobile, V.Strip(rawCode, cc), repeat, timeout), channel,
                   V.Strip(rawCode, cc), repeat)
  {
    ValidCodeIsPlain(rawCode, cc);
    CallSpeaksItsCodeIff(trunk, callerId, context, id, mobile, V.Strip(rawCode, cc), repeat, timeout, channel);
  }

  /** The code of a retry is not validated: any retryable call can be retried with a code that is
      accepted and not spoken. */
  lemma RetryCodeCanGetLost(db: Db, parent: Id, repeat: Option<int>, trunk: string, callerId: string,
                            context: string, id: Id, timeout: int, channel: string)
    requires parent in db.calls && IsRetryable(db.calls[parent].status) && ',' !in id
    ensures exists code: string ::
              && PlanRetry(db, parent, Some(code)) == RetryWith(db.calls[parent].mobile, code)
              && !Speaks(ActionFor(trunk, callerId, context, id, db.calls[parent].mobile, code, RetryRepeat(repeat),
                                   timeout), channel, code, Clamp(RetryRepeat(repeat)))
  {
    var code := "12,34";
    assert code[2] == ',';
    assert !V.HasDangerous(code);
    V.SanitizeRemovesDangerous(code);
    CallSpeaksItsCodeIff(trunk, callerId, context, id, db.calls[parent].mobile, code, RetryRepeat(repeat), timeout,
                         channel);
    assert PlanRetry(db, parent, Some(code)) == RetryWith(db.calls[parent].mobile, code);
  }
}
