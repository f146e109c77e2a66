/** The two playback programs of the dialplan and the trace of what they do on a channel. */
module Dialplan {
  import opened Prelude

  datatype Action =
    | Answer
    | UserEvent(name: string, requestId: Id, channel: Option<string>)
    | Wait(seconds: nat)
    | SetLanguage(language: string)
    | Playback(file: string)
    | SayDigits(digits: string)
    | HangUp

  const INTRO := Playback("otp/otp-intro")
  const GOODBYE := Playback("otp/otp-goodbye")

  // ----- What the programs are meant to do -----

  function Times(n: int, block: seq<Action>): seq<Action> {
    if n <= 0 then [] else Times(n - 1, block) + block
  }

  function DigitPrompts(code: string): seq<Action> {
    seq(|code|, i requires 0 <= i < |code| => Playback("otp/digits/" + [code[i]]))
  }

  function StartEvent(requestId: Id, channel: string): Action {
    UserEvent("OTPCallStart", requestId, Some(channel))
  }

  function PlayingEvent(requestId: Id): Action {
    UserEvent("OTPPlaybackStart", requestId, None)
  }

  function DoneEvent(requestId: Id): Action {
    UserEvent("OTPPlaybackComplete", requestId, None)
  }

  function Opening(requestId: Id, channel: string): seq<Action> {
    [Answer, StartEvent(requestId, channel), Wait(1)]
  }

  function Closing(requestId: Id): seq<Action> {
    [GOODBYE, DoneEvent(requestId), HangUp]
  }

  function SystemScript(code: string, repeat: int, requestId: Id, channel: string): seq<Action> {
    Opening(requestId, channel) + [SetLanguage("fa"), PlayingEvent(requestId)] +
    Times(repeat, [INTRO, SayDigits(code), Wait(1)]) + Closing(requestId)
  }

  function CustomScript(code: string, repeat: int, requestId: Id, channel: string): seq<Action> {
    Opening(requestId, channel) + [PlayingEvent(requestId)] +
    Times(repeat, [INTRO] + DigitPrompts(code) + [Wait(1)]) + Closing(requestId)
  }

  // ----- The same, place by place -----

  /** The `i`-th place of the `k`-th of blocks of one width. */
  function At(k: nat, width: nat, i: nat): nat {
    k * width + i
  }

  lemma {:induction false} BlocksFit(k: nat, n: nat, width: nat, i: nat)
    requires k < n && i < width
    ensures At(k, width, i) < n * width
  {
    if k < n - 1 {
      BlocksFit(k, n - 1, width, i);
    }
  }

  lemma {:induction false} TimesMember(n: int, block: seq<Action>, a: Action)
    ensures a in Times(n, block) <==> n > 0 && a in block
  {
    if n > 0 {
      TimesMember(n - 1, block, a);
    }
  }

  lemma {:induction false} TimesLength(n: nat, block: seq<Action>)
    ensures |Times(n, block)| == n * |block|
  {
    if n > 0 {
      TimesLength(n - 1, block);
      assert n * |block| == (n - 1) * |block| + |block|;
    }
  }

  lemma {:induction false} TimesAt(n: nat, block: seq<Action>, k: nat, i: nat)
    requires k < n && i < |block|
    ensures At(k, |block|, i) < |Times(n, block)| && Times(n, block)[At(k, |block|, i)] == block[i]
  {
    TimesLength(n - 1, block);
    TimesLength(n, block);
    BlocksFit(k, n, |block|, i);
    if k < n - 1 {
      TimesAt(n - 1, block, k, i);
    }
  }

  /** An opening, one round so many times over, and a closing, with nothing else. */
  ghost predicate Performs(trace: seq<Action>, opening: seq<Action>, round: seq<Action>, repeat: int,
                           closing: seq<Action>)
  {
    var times := if repeat > 0 then repeat else 0;
    && |trace| == |opening| + times * |round| + |closing|
    && opening <= trace && trace[|trace| - |closing|..] == closing
    && forall k: nat, i: nat :: k < times && i < |round| && |opening| + At(k, |round|, i) < |trace| ==>
         trace[|opening| + At(k, |round|, i)] == round[i]
  }

  ghost predicate SystemRun(trace: seq<Action>, code: string, repeat: int, requestId: Id, channel: string) {
    Performs(trace,
             [Answer, UserEvent("OTPCallStart", requestId, Some(channel)), Wait(1), SetLanguage("fa"),
              UserEvent("OTPPlaybackStart", requestId, None)],
             [Playback("otp/otp-intro"), SayDigits(code), Wait(1)], repeat,
             [Playback("otp/otp-goodbye"), UserEvent("OTPPlaybackComplete", requestId, None), HangUp])
  }

  ghost predicate CustomRun(trace: seq<Action>, code: string, repeat: int, requestId: Id, channel: string) {
    Performs(trace,
             [Answer, UserEvent("OTPCallStart", requestId, Some(channel)), Wait(1),
              UserEvent("OTPPlaybackStart", requestId, None)],
             [Playback("otp/otp-intro")] +
             seq(|code|, i requires 0 <= i < |code| => Playback("otp/digits/" + [code[i]])) + [Wait(1)], repeat,
             [Playback("otp/otp-goodbye"), UserEvent("OTPPlaybackComplete", requestId, None), HangUp])
  }

  lemma BuiltPerforms(trace: seq<Action>, opening: seq<Action>, round: seq<Action>, repeat: int, closing: seq<Action>)
    requires trace == opening + Times(repeat, round) + closing
    ensures Performs(trace, opening, round, repeat, closing)
  {
    var times := if repeat > 0 then repeat else 0;
    assert Times(repeat, round) == Times(times, round);
    TimesLength(times, round);
    forall k: nat, i: nat | k < times && i < |round| && |opening| + At(k, |round|, i) < |trace|
      ensures trace[|opening| + At(k, |round|, i)] == round[i]
    {
      TimesAt(times, round, k, i);
    }
  }

  lemma SystemPerforms(code: string, repeat: int, requestId: Id, channel: string)
    ensures SystemRun(SystemScript(code, repeat, requestId, channel), code, repeat, requestId, channel)
  {
    var opening := Opening(requestId, channel) + [SetLanguage("fa"), PlayingEvent(requestId)];
    BuiltPerforms(SystemScript(code, repeat, requestId, channel), opening, [INTRO, SayDigits(code), Wait(1)], repeat,
                  Closing(requestId));
  }

  lemma CustomPerforms(code: string, repeat: int, requestId: Id, channel: string)
    ensures CustomRun(CustomScript(code, repeat, requestId, channel), code, repeat, requestId, channel)
  {
    var opening := Opening(requestId, channel) + [PlayingEvent(requestId)];
    var prompts := seq(|code|, i requires 0 <= i < |code| => Playback("otp/digits/" + [code[i]]));
    assert prompts == DigitPrompts(code);
    BuiltPerforms(CustomScript(code, repeat, requestId, channel), opening, [INTRO] + prompts + [Wait(1)], repeat,
                  Closing(requestId));
  }

  // ----- The programs -----

  /** Context `otp-playback`. */
  method OtpPlayback(otpCode: string, otpRepeat: int, otpRequestId: Id, channel: string) returns (trace: seq<Action>)
    ensures trace == SystemScript(otpCode, otpRepeat, otpRequestId, channel)
    ensures SystemRun(trace, otpCode, otpRepeat, otpRequestId, channel)
  {
    trace := [Answer];
    trace := trace + [UserEvent("OTPCallStart", otpRequestId, Some(channel))];
    trace := trace + [Wait(1)];
    trace := trace + [SetLanguage("fa")];
    trace := trace + [UserEvent("OTPPlaybackStart", otpRequestId, None)];
    ghost var opening := trace;
    ghost var round := [INTRO, SayDigits(otpCode), Wait(1)];
    var otpCounter := 0;
    while otpCounter < otpRepeat
      invariant 0 <= otpCounter && (otpCounter <= otpRepeat || otpCounter == 0)
      invariant trace == opening + Times(otpCounter, round)
      decreases otpRepeat - otpCounter
    {
      trace := trace + [Playback("otp/otp-intro")];
      trace := trace + [SayDigits(otpCode)];
      trace := trace + [Wait(1)];
      otpCounter := otpCounter + 1;
      assert trace == opening + (Times(otpCounter - 1, round) + round);
    }
    assert Times(otpCounter, round) == Times(otpRepeat, round);
    trace := trace + [Playback("otp/otp-goodbye")];
    trace := trace + [UserEvent("OTPPlaybackComplete", otpRequestId, None)];
    trace := trace + [HangUp];
    assert trace == SystemScript(otpCode, otpRepeat, otpRequestId, channel);
    SystemPerforms(otpCode, otpRepeat, otpRequestId, channel);
  }

  /** Context `otp-playback-custom`: one recorded prompt for each digit of the code. */
  method OtpPlaybackCustom(otpCode: string, otpRepeat: int, otpRequestId: Id, channel: string)
    returns (trace: seq<Action>)
    ensures trace == CustomScript(otpCode, otpRepeat, otpRequestId, channel)
    ensures CustomRun(trace, otpCode, otpRepeat, otpRequestId, channel)
  {
    trace := [Answer];
    trace := trace + [UserEvent("OTPCallStart", otpRequestId, Some(channel))];
    trace := trace + [Wait(1)];
    trace := trace + [UserEvent("OTPPlaybackStart", otpRequestId, None)];
    ghost var opening := trace;
    ghost var prompts := DigitPrompts(otpCode);
    ghost var round := [INTRO] + prompts + [Wait(1)];
    var otpCounter := 0;
    while otpCounter < otpRepeat
      invariant 0 <= otpCounter && (otpCounter <= otpRepeat || otpCounter == 0)
      invariant trace == opening + Times(otpCounter, round)
      decreases otpRepeat - otpCounter
    {
      ghost var before := trace;
      trace := trace + [Playback("otp/otp-intro")];
      var otpCodeCopy := otpCode;
      var otpLen := |otpCodeCopy|;
      var otpJ := 0;
      while otpJ < otpLen
        invariant 0 <= otpJ <= otpLen
        invariant trace == before + [INTRO] + prompts[..otpJ]
        decreases otpLen - otpJ
      {
        var otpDigit := otpCodeCopy[otpJ..otpJ + 1];
        trace := trace + [Playback("otp/digits/" + otpDigit)];
        otpJ := otpJ + 1;
        assert otpDigit == [otpCode[otpJ - 1]];
        assert prompts[..otpJ] == prompts[..otpJ - 1] + [prompts[otpJ - 1]];
      }
      trace := trace + [Wait(1)];
      otpCounter := otpCounter + 1;
      assert prompts[..otpLen] == prompts;
      assert trace == opening + (Times(otpCounter - 1, round) + round);
    }
    assert Times(otpCounter, round) == Times(otpRepeat, round);
    trace := trace + [Playback("otp/otp-goodbye")];
    trace := trace + [UserEvent("OTPPlaybackComplete", otpRequestId, None)];
    trace := trace + [HangUp];
    assert trace == CustomScript(otpCode, otpRepeat, otpRequestId, channel);
    CustomPerforms(otpCode, otpRepeat, otpRequestId, channel);
  }

  // ----- What a listener hears and what the manager interface sees -----

  /** The members of a trace of one kind, in order. */
  function Select(trace: seq<Action>, keep: Action -> bool): seq<Action> {
    if trace == [] then []
    else
      var before := Select(trace[..|trace| - 1], keep);
      var a := trace[|trace| - 1];
      if keep(a) then before + [a] else before
  }

  predicate IsSpoken(a: Action) {
    a.Playback? || a.SayDigits?
  }

  predicate IsEvent(a: Action) {
    a.UserEvent?
  }

  function Spoken(trace: seq<Action>): seq<Action> {
    Select(trace, IsSpoken)
  }

  function UserEvents(trace: seq<Action>): seq<Action> {
    Select(trace, IsEvent)
  }

  lemma {:induction false} SelectConcat(trace: seq<Action>, more: seq<Action>, keep: Action -> bool)
    ensures Select(trace + more, keep) == Select(trace, keep) + Select(more, keep)
  {
    if more == [] {
      assert trace + more == trace;
    } else {
      SelectConcat(trace, more[..|more| - 1], keep);
      assert (trace + more)[..|trace + more| - 1] == trace + more[..|more| - 1];
    }
  }

  lemma {:induction false} SelectTimes(n: int, block: seq<Action>, keep: Action -> bool)
    ensures Select(Times(n, block), keep) == Times(n, Select(block, keep))
  {
    if n > 0 {
      SelectTimes(n - 1, block, keep);
      SelectConcat(Times(n - 1, block), block, keep);
    }
  }

  lemma {:induction false} TimesNothing(n: int)
    ensures Times(n, []) == []
  {
    if n > 0 {
      TimesNothing(n - 1);
    }
  }

  lemma {:induction false} SelectAll(trace: seq<Action>, keep: Action -> bool)
    requires forall i :: 0 <= i < |trace| ==> keep(trace[i])
    ensures Select(trace, keep) == trace
  {
    if trace != [] {
      SelectAll(trace[..|trace| - 1], keep);
    }
  }

  lemma {:induction false} SelectNone(trace: seq<Action>, keep: Action -> bool)
    requires forall i :: 0 <= i < |trace| ==> !keep(trace[i])
    ensures Select(trace, keep) == []
  {
    if trace != [] {
      SelectNone(trace[..|trace| - 1], keep);
    }
  }

  lemma SelectOne(a: Action, keep: Action -> bool)
    ensures Select([a], keep) == if keep(a) then [a] else []
  {
    assert [a][..0] == [];
  }

  /** The custom program says the intro and then each digit of the code in order, as many times
      as asked, and the goodbye once at the end. */
  lemma CustomSpeech(code: string, repeat: int, requestId: Id, channel: string)
    ensures Spoken(CustomScript(code, repeat, requestId, channel)) ==
            Times(repeat, [INTRO] + DigitPrompts(code)) + [GOODBYE]
  {
    var keep := IsSpoken;
    var opening, playing := Opening(requestId, channel), [PlayingEvent(requestId)];
    var speech := [INTRO] + DigitPrompts(code);
    var round := speech + [Wait(1)];
    SelectNone(opening + playing, keep);
    SelectConcat(speech, [Wait(1)], keep);
    SelectAll(speech, keep);
    SelectNone([Wait(1)], keep);
    SelectTimes(repeat, round, keep);
    SelectConcat([GOODBYE], [DoneEvent(requestId), HangUp], keep);
    SelectAll([GOODBYE], keep);
    SelectNone([DoneEvent(requestId), HangUp], keep);
    assert Closing(requestId) == [GOODBYE] + [DoneEvent(requestId), HangUp];
    assert [INTRO] + DigitPrompts(code) + [Wait(1)] == round;
    SelectConcat(opening + playing, Times(repeat, round), keep);
    SelectConcat(opening + playing + Times(repeat, round), Closing(requestId), keep);
  }

  /** The `k`-th round of what is heard: the intro, then every digit from the first to the last. */
  ghost predicate SaysRound(heard: seq<Action>, code: string, k: nat) {
    var start := k * (|code| + 1);
    && start + |code| < |heard|
    && heard[start] == Playback("otp/otp-intro")
    && forall i :: 0 <= i < |code| ==> heard[start + 1 + i] == Playback("otp/digits/" + [code[i]])
  }

  /** What is heard, place by place: so many rounds, the goodbye, and nothing else. */
  ghost predicate Says(heard: seq<Action>, code: string, repeat: nat) {
    && |heard| == repeat * (|code| + 1) + 1
    && (forall k: nat :: k < repeat ==> SaysRound(heard, code, k))
    && heard[|heard| - 1] == Playback("otp/otp-goodbye")
  }

  lemma SpeechSaysRound(code: string, repeat: nat, k: nat)
    requires k < repeat
    ensures SaysRound(Times(repeat, [INTRO] + DigitPrompts(code)) + [GOODBYE], code, k)
  {
    var block := [INTRO] + DigitPrompts(code);
    var heard := Times(repeat, block) + [GOODBYE];
    TimesLength(repeat, block);
    TimesAt(repeat, block, k, 0);
    TimesAt(repeat, block, k, |code|);
    forall i | 0 <= i < |code| ensures heard[k * (|code| + 1) + 1 + i] == Playback("otp/digits/" + [code[i]]) {
      TimesAt(repeat, block, k, i + 1);
    }
  }

  lemma SpeechSays(code: string, repeat: nat)
    ensures Says(Times(repeat, [INTRO] + DigitPrompts(code)) + [GOODBYE], code, repeat)
  {
    var block := [INTRO] + DigitPrompts(code);
    TimesLength(repeat, block);
    forall k: nat | k < repeat ensures SaysRound(Times(repeat, block) + [GOODBYE], code, k) {
      SpeechSaysRound(code, repeat, k);
    }
  }

  /** Every place of what the custom program says. */
  lemma CustomSays(code: string, repeat: nat, requestId: Id, channel: string)
    ensures Says(Spoken(CustomScript(code, repeat, requestId, channel)), code, repeat)
  {
    CustomSpeech(code, repeat, requestId, channel);
    SpeechSays(code, repeat);
  }

  lemma OpeningEvents(requestId: Id, channel: string)
    ensures UserEvents(Opening(requestId, channel)) == [StartEvent(requestId, channel)]
  {
    var keep := IsEvent;
    var start := StartEvent(requestId, channel);
    assert Opening(requestId, channel) == [Answer] + [start] + [Wait(1)];
    SelectConcat([Answer] + [start], [Wait(1)], keep);
    SelectConcat([Answer], [start], keep);
    SelectOne(Answer, keep);
    SelectOne(start, keep);
    SelectOne(Wait(1), keep);
  }

  lemma ClosingEvents(requestId: Id)
    ensures UserEvents(Closing(requestId)) == [DoneEvent(requestId)]
  {
    var keep := IsEvent;
    var done := DoneEvent(requestId);
    assert Closing(requestId) == [GOODBYE] + [done] + [HangUp];
    SelectConcat([GOODBYE] + [done], [HangUp], keep);
    SelectConcat([GOODBYE], [done], keep);
    SelectOne(GOODBYE, keep);
    SelectOne(done, keep);
    SelectOne(HangUp, keep);
  }

  lemma SelectEvents(before: seq<Action>, playing: seq<Action>, rounds: seq<Action>, requestId: Id, channel: string)
    requires before == Opening(requestId, channel) && UserEvents(rounds) == []
    requires UserEvents(playing) == [PlayingEvent(requestId)]
    ensures UserEvents(before + playing + rounds + Closing(requestId)) ==
            [StartEvent(requestId, channel), PlayingEvent(requestId), DoneEvent(requestId)]
  {
    var keep := IsEvent;
    OpeningEvents(requestId, channel);
    ClosingEvents(requestId);
    SelectConcat(before, playing, keep);
    SelectConcat(before + playing, rounds, keep);
    SelectConcat(before + playing + rounds, Closing(requestId), keep);
  }

  /** Both programs raise the three events once each and in order, whatever the code and count. */
  lemma EventsInOrder(code: string, repeat: int, requestId: Id, channel: string)
    ensures UserEvents(CustomScript(code, repeat, requestId, channel)) ==
            UserEvents(SystemScript(code, repeat, requestId, channel)) ==
            [StartEvent(requestId, channel), PlayingEvent(requestId), DoneEvent(requestId)]
  {
    var keep := IsEvent;
    var playing := PlayingEvent(requestId);
    var custom := [INTRO] + DigitPrompts(code) + [Wait(1)];
    var system := [INTRO, SayDigits(code), Wait(1)];
    SelectTimes(repeat, custom, keep);
    SelectTimes(repeat, system, keep);
    SelectNone(custom, keep);
    SelectNone(system, keep);
    TimesNothing(repeat);
    SelectOne(playing, keep);
    SelectOne(SetLanguage("fa"), keep);
    SelectConcat([SetLanguage("fa")], [playing], keep);
    assert [SetLanguage("fa"), playing] == [SetLanguage("fa")] + [playing];
    SelectEvents(Opening(requestId, channel), [playing], Times(repeat, custom), requestId, channel);
    SelectEvents(Opening(requestId, channel), [SetLanguage("fa"), playing], Times(repeat, system), requestId, channel);
  }

  // ----- The two programs agree -----

  /** SayDigits as one prompt for each character, and no language setting. */
  function Expand(trace: seq<Action>): seq<Action> {
    if trace == [] then []
    else
      var before := Expand(trace[..|trace| - 1]);
      match trace[|trace| - 1]
      case SayDigits(digits) => before + DigitPrompts(digits)
      case SetLanguage(_) => before
      case a => before + [a]
  }

  lemma {:induction false} ExpandConcat(trace: seq<Action>, more: seq<Action>)
    ensures Expand(trace + more) == Expand(trace) + Expand(more)
  {
    if more == [] {
      assert trace + more == trace;
    } else {
      ExpandConcat(trace, more[..|more| - 1]);
      assert (trace + more)[..|trace + more| - 1] == trace + more[..|more| - 1];
    }
  }

  lemma {:induction false} ExpandTimes(n: int, block: seq<Action>)
    ensures Expand(Times(n, block)) == Times(n, Expand(block))
  {
    if n > 0 {
      ExpandTimes(n - 1, block);
      ExpandConcat(Times(n - 1, block), block);
    }
  }

  lemma {:induction false} ExpandPlain(trace: seq<Action>)
    requires forall i :: 0 <= i < |trace| ==> !trace[i].SayDigits? && !trace[i].SetLanguage?
    ensures Expand(trace) == trace
  {
    if trace != [] {
      ExpandPlain(trace[..|trace| - 1]);
    }
  }

  /** Spelled out digit by digit the system program does, action for action, what the custom
      program does. */
  lemma ProgramsAgree(code: string, repeat: int, requestId: Id, channel: string)
    ensures Expand(SystemScript(code, repeat, requestId, channel)) == CustomScript(code, repeat, requestId, channel)
  {
    var opening, playing := Opening(requestId, channel), [SetLanguage("fa"), PlayingEvent(requestId)];
    var round := [INTRO, SayDigits(code), Wait(1)];
    assert playing == [SetLanguage("fa")] + [PlayingEvent(requestId)];
    assert round == [INTRO] + [SayDigits(code)] + [Wait(1)];
    assert [SetLanguage("fa")][..0] == [] && [SayDigits(code)][..0] == [];
    ExpandConcat([SetLanguage("fa")], [PlayingEvent(requestId)]);
    ExpandConcat([INTRO], [SayDigits(code)]);
    ExpandConcat([INTRO] + [SayDigits(code)], [Wait(1)]);
    ExpandPlain([PlayingEvent(requestId)]);
    ExpandPlain([INTRO]);
    ExpandPlain([Wait(1)]);
    ExpandPlain(opening);
    ExpandPlain(Closing(requestId));
    ExpandTimes(repeat, round);
    ExpandConcat(opening, playing);
    ExpandConcat(opening + playing, Times(repeat, round));
    ExpandConcat(opening + playing + Times(repeat, round), Closing(requestId));
  }

  /** Whichever program the originator selects, the listener hears the code as often as asked. */
  lemma SystemSpeech(code: string, repeat: int, requestId: Id, channel: string)
    ensures Spoken(Expand(SystemScript(code, repeat, requestId, channel))) ==
            Times(repeat, [INTRO] + DigitPrompts(code)) + [GOODBYE]
  {
    ProgramsAgree(code, repeat, requestId, channel);
    CustomSpeech(code, repeat, requestId, channel);
  }

  /** And of what the system program says, with SayDigits spelled out. */
  lemma SystemSays(code: string, repeat: nat, requestId: Id, channel: string)
    ensures Says(Spoken(Expand(SystemScript(code, repeat, requestId, channel))), code, repeat)
  {
    SystemSpeech(code, repeat, requestId, channel);
    SpeechSays(code, repeat);
  }
}
