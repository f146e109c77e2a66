/** Canonical mobile numbers, OTP codes, and the characters kept out of AMI values. */
module Validation {
  import opened Prelude

  /** The two Unicode classes Python consults, what `\d` matches and what `strip` removes, and the
      digit a decimal character stands for. */
  datatype CharClasses = CharClasses(decimal: char -> bool, space: char -> bool, value: char -> int)

  ghost predicate Sound(cc: CharClasses) {
    && (forall c: char :: '0' <= c <= '9' ==> cc.decimal(c) && cc.value(c) == c as int - '0' as int)
    && (forall c: char :: cc.decimal(c) ==> !cc.space(c) && !Dangerous(c) && c != ',' && 0 <= cc.value(c) <= 9)
    && cc.space('\r') && cc.space('\n')
  }

  const ASCII :=
    CharClasses(c => '0' <= c <= '9', c => c in {' ', '\t', '\n', '\r'}, c => c as int - '0' as int)

  /** Any classifier that agrees with ASCII on the digits; the service runs with Unicode's. */
  type Unicode = cc: CharClasses | Sound(cc) ghost witness ASCII

  predicate Dangerous(c: char) {
    c in {'\r', '\n', '\0'}
  }

  function StripLeft(s: string, cc: Unicode): string {
    if s != [] && cc.space(s[0]) then StripLeft(s[1..], cc) else s
  }

  function StripRight(s: string, cc: Unicode): string {
    if s != [] && cc.space(s[|s| - 1]) then StripRight(s[..|s| - 1], cc) else s
  }

  function Strip(s: string, cc: Unicode): string {
    StripRight(StripLeft(s, cc), cc)
  }

  predicate AllDecimal(s: string, cc: Unicode) {
    forall i :: 0 <= i < |s| ==> cc.decimal(s[i])
  }

  predicate HasDangerous(s: string) {
    exists i :: 0 <= i < |s| && Dangerous(s[i])
  }

  /** A literal prefix and nine decimal digits. After stripping no newline can follow, so `$`
      matches only at the end. */
  predicate Spelled(s: string, prefix: string, cc: Unicode) {
    |s| == |prefix| + 9 && prefix <= s && AllDecimal(s[|prefix|..], cc)
  }

  /** The canonical form 09XXXXXXXXX, or None for an invalid number. */
  function NormalizeMobile(raw: string, cc: Unicode): Option<string> {
    var mobile := Strip(raw, cc);
    if HasDangerous(mobile) then None
    else if Spelled(mobile, "09", cc) then Some(mobile)
    else if Spelled(mobile, "+989", cc) then Some("0" + mobile[3..])
    else if Spelled(mobile, "00989", cc) then Some("0" + mobile[4..])
    else if Spelled(mobile, "989", cc) then Some("0" + mobile[2..])
    else None
  }

  /** Four to eight decimal digits, after stripping. */
  predicate ValidCode(raw: string, cc: Unicode) {
    var code := Strip(raw, cc);
    !HasDangerous(code) && 4 <= |code| <= 8 && AllDecimal(code, cc)
  }

  predicate ValidRepeat(repeat: int) {
    1 <= repeat <= 3
  }

  function Sanitize(value: string): string {
    if value == [] then []
    else
      var before := Sanitize(value[..|value| - 1]);
      if Dangerous(value[|value| - 1]) then before else before + [value[|value| - 1]]
  }

  predicate Canonical(mobile: string, cc: Unicode) {
    Spelled(mobile, "09", cc)
  }

  const PREFIXES: seq<string> := ["09", "+989", "00989", "989"]

  /** The nine characters that tell numbers apart. */
  function Suffix(raw: string, cc: Unicode): string
    requires |Strip(raw, cc)| >= 9
  {
    var mobile := Strip(raw, cc);
    mobile[|mobile| - 9..]
  }

  lemma SpelledIsSafe(s: string, prefix: string, cc: Unicode)
    requires Spelled(s, prefix, cc) && !HasDangerous(prefix)
    ensures !HasDangerous(s)
  {
    forall i | 0 <= i < |s| ensures !Dangerous(s[i]) {
      if i < |prefix| {
        assert s[i] == prefix[i];
      } else {
        assert s[i] == s[|prefix|..][i - |prefix|];
      }
    }
  }

  /** Dropping the prefix of a spelling and writing `09` gives the canonical form. */
  lemma KeyOfSpelling(mobile: string, prefix: string, key: string, cc: Unicode)
    requires Spelled(mobile, prefix, cc) && key == "09" + mobile[|prefix|..]
    ensures key == "09" + mobile[|mobile| - 9..] && Canonical(key, cc)
  {
    assert key[2..] == mobile[|prefix|..];
  }

  lemma KeyOfPlus(mobile: string, cc: Unicode)
    requires Spelled(mobile, "+989", cc)
    ensures "0" + mobile[3..] == "09" + mobile[|"+989"|..]
  {
    assert mobile[3] == "+989"[3];
    assert mobile[3..] == [mobile[3]] + mobile[4..];
  }

  lemma KeyOfDoubleZero(mobile: string, cc: Unicode)
    requires Spelled(mobile, "00989", cc)
    ensures "0" + mobile[4..] == "09" + mobile[|"00989"|..]
  {
    assert mobile[4] == "00989"[4];
    assert mobile[4..] == [mobile[4]] + mobile[5..];
  }

  lemma KeyOfBare(mobile: string, cc: Unicode)
    requires Spelled(mobile, "989", cc)
    ensures "0" + mobile[2..] == "09" + mobile[|"989"|..]
  {
    assert mobile[2] == "989"[2];
    assert mobile[2..] == [mobile[2]] + mobile[3..];
  }

  lemma KeyOfLocal(mobile: string, cc: Unicode)
    requires Spelled(mobile, "09", cc)
    ensures mobile == "09" + mobile[|"09"|..]
  {
  }

  lemma KeyIsCanonical(raw: string, cc: Unicode)
    requires NormalizeMobile(raw, cc).Some?
    ensures |Strip(raw, cc)| >= 9 && NormalizeMobile(raw, cc).value == "09" + Suffix(raw, cc)
    ensures Canonical(NormalizeMobile(raw, cc).value, cc)
  {
    var mobile, key := Strip(raw, cc), NormalizeMobile(raw, cc).value;
    if Spelled(mobile, "09", cc) {
      KeyOfLocal(mobile, cc);
      KeyOfSpelling(mobile, "09", key, cc);
    } else if Spelled(mobile, "+989", cc) {
      KeyOfPlus(mobile, cc);
      KeyOfSpelling(mobile, "+989", key, cc);
    } else if Spelled(mobile, "00989", cc) {
      KeyOfDoubleZero(mobile, cc);
      KeyOfSpelling(mobile, "00989", key, cc);
    } else {
      KeyOfBare(mobile, cc);
      KeyOfSpelling(mobile, "989", key, cc);
    }
  }

  /** No two of the prefixes can start one text of the length they would both require. */
  lemma SpellingsDiffer(s: string, j: nat, k: nat, cc: Unicode)
    requires j < k < |PREFIXES| && Spelled(s, PREFIXES[j], cc)
    ensures !Spelled(s, PREFIXES[k], cc)
  {
    assert |PREFIXES[0]| == 2 && |PREFIXES[1]| == 4 && |PREFIXES[2]| == 5 && |PREFIXES[3]| == 3;
  }

  lemma SpelledIsAccepted(raw: string, k: nat, cc: Unicode)
    requires k < |PREFIXES| && Spelled(Strip(raw, cc), PREFIXES[k], cc)
    ensures NormalizeMobile(raw, cc).Some?
  {
    assert PREFIXES[0] == "09" && PREFIXES[1] == "+989" && PREFIXES[2] == "00989" && PREFIXES[3] == "989";
    SpelledIsSafe(Strip(raw, cc), PREFIXES[k], cc);
  }

  lemma AcceptedIsSpelled(raw: string, cc: Unicode) returns (k: nat)
    requires NormalizeMobile(raw, cc).Some?
    ensures k < |PREFIXES| && Spelled(Strip(raw, cc), PREFIXES[k], cc)
  {
    var mobile := Strip(raw, cc);
    k := if Spelled(mobile, "09", cc) then 0
    else if Spelled(mobile, "+989", cc) then 1
    else if Spelled(mobile, "00989", cc) then 2
    else 3;
  }

  /** A number is accepted exactly when it has one of the four spellings, it never has two, and
      the canonical form is `09` with the same nine digits whichever it was. */
  lemma AcceptedSpellings(raw: string, cc: Unicode)
    ensures NormalizeMobile(raw, cc).Some? <==>
            exists k :: 0 <= k < |PREFIXES| && Spelled(Strip(raw, cc), PREFIXES[k], cc)
    ensures forall j, k :: 0 <= j < k < |PREFIXES| ==>
              !(Spelled(Strip(raw, cc), PREFIXES[j], cc) && Spelled(Strip(raw, cc), PREFIXES[k], cc))
    ensures NormalizeMobile(raw, cc).Some? ==>
              |Strip(raw, cc)| >= 9 && NormalizeMobile(raw, cc).value == "09" + Suffix(raw, cc)
              && Canonical(NormalizeMobile(raw, cc).value, cc)
  {
    var mobile := Strip(raw, cc);
    forall j, k | 0 <= j < k < |PREFIXES| && Spelled(mobile, PREFIXES[j], cc)
      ensures !Spelled(mobile, PREFIXES[k], cc)
    {
      SpellingsDiffer(mobile, j, k, cc);
    }
    forall k | 0 <= k < |PREFIXES| && Spelled(mobile, PREFIXES[k], cc) ensures NormalizeMobile(raw, cc).Some? {
      SpelledIsAccepted(raw, k, cc);
    }
    if NormalizeMobile(raw, cc).Some? {
      var _ := AcceptedIsSpelled(raw, cc);
      KeyIsCanonical(raw, cc);
    }
  }

  /** Two accepted inputs share one key exactly when their last nine characters agree. */
  lemma SameKeyIffSameSuffix(raw: string, raw': string, cc: Unicode)
    requires NormalizeMobile(raw, cc).Some? && NormalizeMobile(raw', cc).Some?
    ensures |Strip(raw, cc)| >= 9 && |Strip(raw', cc)| >= 9
    ensures NormalizeMobile(raw, cc) == NormalizeMobile(raw', cc) <==> Suffix(raw, cc) == Suffix(raw', cc)
  {
    AcceptedSpellings(raw, cc);
    AcceptedSpellings(raw', cc);
    assert ("09" + Suffix(raw, cc))[2..] == Suffix(raw, cc);
    assert ("09" + Suffix(raw', cc))[2..] == Suffix(raw', cc);
  }

  /** A canonical number is its own canonical form. */
  lemma CanonicalIsFixed(mobile: string, cc: Unicode)
    requires Canonical(mobile, cc)
    ensures NormalizeMobile(mobile, cc) == Some(mobile)
  {
    assert mobile[0] == "09"[0];
    assert mobile[10] == mobile[2..][8];
    assert Strip(mobile, cc) == mobile;
    SpelledIsSafe(mobile, "09", cc);
  }

  // ----- The number behind a key -----

  /** The digits a text stands for, whatever script they are written in. */
  function DigitValues(s: string, cc: Unicode): seq<int> {
    seq(|s|, i requires 0 <= i < |s| => cc.value(s[i]))
  }

  /** Two accepted inputs that are the same telephone number to whoever reads them. */
  ghost predicate SameNumber(raw: string, raw': string, cc: Unicode) {
    && NormalizeMobile(raw, cc).Some? && NormalizeMobile(raw', cc).Some?
    && DigitValues(NormalizeMobile(raw, cc).value, cc) == DigitValues(NormalizeMobile(raw', cc).value, cc)
  }

  ghost predicate OnlyAscii(cc: Unicode) {
    forall c: char :: cc.decimal(c) ==> '0' <= c <= '9'
  }

  function AsciiDigit(v: int): char
    requires 0 <= v <= 9
  {
    ('0' as int + v) as char
  }

  /** The number `09` and nine times one digit. */
  function Uniform(c: char): string {
    "09" + seq(9, _ => c)
  }

  lemma UniformIsCanonical(c: char, cc: Unicode)
    requires cc.decimal(c)
    ensures Canonical(Uniform(c), cc)
  {
    assert Uniform(c)[2..] == seq(9, _ => c);
  }

  /** A decimal outside ASCII and the ASCII digit of the same value make two keys of one number. */
  lemma TwoKeys(c: char, cc: Unicode)
    requires cc.decimal(c) && !('0' <= c <= '9')
    ensures var key, key' := Uniform(c), Uniform(AsciiDigit(cc.value(c)));
            && Canonical(key, cc) && Canonical(key', cc) && key != key'
            && DigitValues(key, cc) == DigitValues(key', cc)
  {
    var d := AsciiDigit(cc.value(c));
    UniformIsCanonical(c, cc);
    UniformIsCanonical(d, cc);
    assert Uniform(c)[2] == c && Uniform(d)[2] == d;
    assert cc.value(d) == cc.value(c);
    var key, key' := Uniform(c), Uniform(d);
    forall i | 0 <= i < 11 ensures DigitValues(key, cc)[i] == DigitValues(key', cc)[i] {
      if i >= 2 {
        assert key[i] == key[2..][i - 2] && key'[i] == key'[2..][i - 2];
      }
    }
  }

  /** In ASCII the digits spell themselves. */
  lemma AsciiKeysAreNumbers(key: string, key': string, cc: Unicode)
    requires OnlyAscii(cc) && Canonical(key, cc) && Canonical(key', cc)
    requires DigitValues(key, cc) == DigitValues(key', cc)
    ensures key == key'
  {
    assert |key| == |DigitValues(key, cc)| == |DigitValues(key', cc)| == |key'|;
    forall i | 0 <= i < |key| ensures key[i] == key'[i] {
      assert DigitValues(key, cc)[i] == DigitValues(key', cc)[i];
      if i < 2 {
        assert key[i] == "09"[i] && key'[i] == "09"[i];
      } else {
        assert key[i] == key[2..][i - 2] && key'[i] == key'[2..][i - 2];
        assert cc.decimal(key[i]) && cc.decimal(key'[i]);
      }
    }
  }

  /** All accepted spellings of a number share one key if and only if no decimal outside ASCII is
      accepted as a digit. */
  lemma OneKeyPerNumberIff(cc: Unicode)
    ensures (forall raw, raw' :: SameNumber(raw, raw', cc) ==> NormalizeMobile(raw, cc) == NormalizeMobile(raw', cc))
            <==> OnlyAscii(cc)
  {
    if OnlyAscii(cc) {
      forall raw, raw' | SameNumber(raw, raw', cc) ensures NormalizeMobile(raw, cc) == NormalizeMobile(raw', cc) {
        KeyIsCanonical(raw, cc);
        KeyIsCanonical(raw', cc);
        AsciiKeysAreNumbers(NormalizeMobile(raw, cc).value, NormalizeMobile(raw', cc).value, cc);
      }
    } else {
      var c :| cc.decimal(c) && !('0' <= c <= '9');
      TwoKeys(c, cc);
      var key, key' := Uniform(c), Uniform(AsciiDigit(cc.value(c)));
      CanonicalIsFixed(key, cc);
      CanonicalIsFixed(key', cc);
      assert SameNumber(key, key', cc);
    }
  }

  lemma NormalizeIsIdempotent(raw: string, cc: Unicode)
    requires NormalizeMobile(raw, cc).Some?
    ensures NormalizeMobile(NormalizeMobile(raw, cc).value, cc) == NormalizeMobile(raw, cc)
  {
    AcceptedSpellings(raw, cc);
    CanonicalIsFixed(NormalizeMobile(raw, cc).value, cc);
  }

  // ----- What stripping and the checks mean, character by character -----

  lemma {:induction false} StripLeftIs(s: string, cc: Unicode) returns (blank: string)
    ensures s == blank + StripLeft(s, cc) && forall i :: 0 <= i < |blank| ==> cc.space(blank[i])
    ensures StripLeft(s, cc) != "" ==> !cc.space(StripLeft(s, cc)[0])
  {
    blank := "";
    if s != "" && cc.space(s[0]) {
      var rest := StripLeftIs(s[1..], cc);
      blank := [s[0]] + rest;
    }
  }

  lemma {:induction false} StripRightIs(s: string, cc: Unicode) returns (blank: string)
    ensures s == StripRight(s, cc) + blank && forall i :: 0 <= i < |blank| ==> cc.space(blank[i])
    ensures StripRight(s, cc) != "" ==> !cc.space(StripRight(s, cc)[|StripRight(s, cc)| - 1])
  {
    blank := "";
    if s != "" && cc.space(s[|s| - 1]) {
      var rest := StripRightIs(s[..|s| - 1], cc);
      blank := rest + [s[|s| - 1]];
    }
  }

  /** Stripping takes white space off both ends, all of it and nothing else. */
  lemma StripIs(s: string, cc: Unicode)
    ensures exists before: string, after: string ::
              && s == before + Strip(s, cc) + after
              && (forall i :: 0 <= i < |before| ==> cc.space(before[i]))
              && (forall i :: 0 <= i < |after| ==> cc.space(after[i]))
    ensures var t := Strip(s, cc); t != "" ==> !cc.space(t[0]) && !cc.space(t[|t| - 1])
  {
    var before := StripLeftIs(s, cc);
    var after := StripRightIs(StripLeft(s, cc), cc);
    var left := StripLeft(s, cc);
    assert s == before + Strip(s, cc) + after;
    if Strip(s, cc) != "" {
      assert left[0] == Strip(s, cc)[0];
    }
  }

  /** So long, starting with these characters, and nine decimals after them. */
  predicate Shaped(t: string, first: string, cc: Unicode) {
    && |t| == |first| + 9
    && (forall i :: 0 <= i < |first| ==> t[i] == first[i])
    && forall i :: |first| <= i < |t| ==> cc.decimal(t[i])
  }

  lemma SpelledIff(t: string, prefix: string, cc: Unicode)
    ensures Spelled(t, prefix, cc) <==> Shaped(t, prefix, cc)
  {
    if Spelled(t, prefix, cc) {
      forall i | |prefix| <= i < |t| ensures cc.decimal(t[i]) {
        assert t[i] == t[|prefix|..][i - |prefix|];
      }
    }
  }

  /** The accepted numbers, written out. */
  lemma AcceptedShapes(raw: string, cc: Unicode)
    ensures var t := Strip(raw, cc);
            NormalizeMobile(raw, cc).Some? <==>
            Shaped(t, "09", cc) || Shaped(t, "+989", cc) || Shaped(t, "00989", cc) || Shaped(t, "989", cc)
  {
    var t := Strip(raw, cc);
    SpelledIff(t, "09", cc);
    SpelledIff(t, "+989", cc);
    SpelledIff(t, "00989", cc);
    SpelledIff(t, "989", cc);
    if Spelled(t, "09", cc) {
      SpelledIsAccepted(raw, 0, cc);
    } else if Spelled(t, "+989", cc) {
      SpelledIsAccepted(raw, 1, cc);
    } else if Spelled(t, "00989", cc) {
      SpelledIsAccepted(raw, 2, cc);
    } else if Spelled(t, "989", cc) {
      SpelledIsAccepted(raw, 3, cc);
    }
  }

  /** Sanitising drops each dangerous character and keeps each other one in its place: with the
      empty text unchanged, this says what it does to every text. */
  lemma {:induction false} SanitizeKeepsTheRest(before: string, c: char, after: string)
    ensures Sanitize("") == ""
    ensures Sanitize(before + [c] + after) ==
            Sanitize(before) + (if c in {'\r', '\n', '\0'} then "" else [c]) + Sanitize(after)
  {
    var all := before + [c] + after;
    if after == "" {
      assert all == before + [c] && all[..|all| - 1] == before;
    } else {
      SanitizeKeepsTheRest(before, c, after[..|after| - 1]);
      assert all[..|all| - 1] == before + [c] + after[..|after| - 1];
    }
  }

  /** No dangerous character is left, and safe text is unchanged. */
  lemma {:induction false} SanitizeRemovesDangerous(value: string)
    ensures '\r' !in Sanitize(value) && '\n' !in Sanitize(value) && '\0' !in Sanitize(value)
    ensures !HasDangerous(Sanitize(value))
    ensures !HasDangerous(value) ==> Sanitize(value) == value
  {
    if value != [] {
      SanitizeRemovesDangerous(value[..|value| - 1]);
    }
  }

  /** The number dialled is the number admitted: sanitising a canonical mobile is the identity. */
  lemma CanonicalSurvivesSanitize(mobile: string, cc: Unicode)
    requires Canonical(mobile, cc)
    ensures Sanitize(mobile) == mobile
  {
    SpelledIsSafe(mobile, "09", cc);
    SanitizeRemovesDangerous(mobile);
  }
}
