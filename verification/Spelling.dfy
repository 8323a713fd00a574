/**
 The spelling stage of the error classifier, and the stage order that reaches it.

 Stages 4 to 6 (avoidance, transfer, overgeneralization) are word-list checks; their joint
 verdict is a parameter of `ClassifyError`.
 */
module Spelling {
  import opened Options
  import opened EditDistance
  import opened Sequences

  // Why a response counts as a spelling error.
  datatype SpellingNote =
    | EndingKept(ending: string, distance: nat)
    | ExtraCharacter(extra: char, position: nat)

  // The last two characters, or the whole of a shorter string.
  function Ending(s: string): string {
    if |s| >= 2 then s[|s| - 2..] else s
  }

  function MaxTypoDistance(correct: string): nat {
    if |correct| <= 4 then 1 else 2
  }

  ghost predicate IsOneExtraCharacter(response: string, correct: string) {
    Lev(response, correct) == 1 && |response| == |correct| + 1
  }

  // Different words end alike if both have two characters and their last two agree.
  ghost predicate EndAlike(a: string, b: string) {
    |a| >= 2 && |b| >= 2 && a[|a| - 2] == b[|b| - 2] && a[|a| - 1] == b[|b| - 1]
  }

  // A response is a spelling error if it is one edit away from the word, or two where the word
  // has five characters or more, and either ends like it or is the word with one character too many.
  ghost predicate IsSpellingError(response: string, correct: string) {
    && response != correct
    && (Lev(response, correct) <= 1 || (Lev(response, correct) == 2 && |correct| >= 5))
    && (EndAlike(response, correct) || IsOneExtraCharacter(response, correct))
  }

  lemma EndingsTell(a: string, b: string)
    requires a != b
    ensures Ending(a) == Ending(b) <==> EndAlike(a, b)
  {
    if EndAlike(a, b) {
      assert a[|a| - 2..] == [a[|a| - 2], a[|a| - 1]] && b[|b| - 2..] == [b[|b| - 2], b[|b| - 1]];
    } else if |a| >= 2 && |b| >= 2 {
      assert a[|a| - 2..][0] == a[|a| - 2] && a[|a| - 2..][1] == a[|a| - 1];
      assert b[|b| - 2..][0] == b[|b| - 2] && b[|b| - 2..][1] == b[|b| - 1];
    }
  }

  // The deletion loop. It cannot fall through: distance one with one more character is a deletion.
  method FindExtraCharacter(response: string, correct: string) returns (position: nat)
    requires IsOneExtraCharacter(response, correct)
    ensures IsFirstDeletion(response, correct, position)
  {
    DistanceOneLongerIsDeletion(response, correct);
    for i := 0 to |response|
      invariant forall k: nat :: k < i ==> Without(response, k) != correct
    {
      if Without(response, i) == correct {
        return i;
      }
    }
    assert false;
  }

  method CheckSpelling(response: string, correct: string) returns (note: Option<SpellingNote>)
    ensures note.Some? <==> IsSpellingError(response, correct)
    ensures note.Some? && note.value.EndingKept? ==>
              && EndAlike(response, correct)
              && note.value.ending == response[|response| - 2..] == correct[|correct| - 2..]
              && note.value.distance == Lev(response, correct)
    ensures note.Some? && note.value.ExtraCharacter? ==>
              && !EndAlike(response, correct)
              && IsFirstDeletion(response, correct, note.value.position)
              && note.value.extra == response[note.value.position]
              && |response| <= note.value.position + 2
  {
    if response == correct {
      return None;
    }
    EndingsTell(response, correct);
    var distance := LevenshteinDistance(response, correct);
    if distance <= MaxTypoDistance(correct) {
      if Ending(response) == Ending(correct) {
        return Some(EndingKept(Ending(response), distance));
      }
      if distance == 1 && |response| == |correct| + 1 {
        DistanceOneLongerIsDeletion(response, correct);
        var i := FindExtraCharacter(response, correct);
        if i + 2 < |response| {
          EarlyDeletionKeepsEnding(response, i);
        }
        return Some(ExtraCharacter(response[i], i));
      }
    }
    return None;
  }

  ghost predicate IsFirstDeletion(response: string, correct: string, position: nat) {
    && position < |response|
    && Without(response, position) == correct
    && forall k: nat :: k < position ==> Without(response, k) != correct
  }

  // A deletion before the last two characters keeps the ending. The second reason, described
  // as an extra character "in the middle", is therefore only ever given for one of the last two.
  lemma EarlyDeletionKeepsEnding(response: string, position: nat)
    requires position + 2 < |response|
    ensures Ending(Without(response, position)) == Ending(response)
  {
  }

  // A spelling verdict means the response is one or two single-character edits away, and just
  // one where the word has at most four characters.
  lemma SpellingErrorIsFewEdits(response: string, correct: string)
    requires IsSpellingError(response, correct)
    ensures exists chain :: Chain(chain, response, correct) && 2 <= |chain| <= if |correct| <= 4 then 2 else 3
  {
    ChainOfLevExists(response, correct);
    LevZeroIffEqual(response, correct);
  }

  // Words that differ in one of their last two characters are never taken for a typo, unless
  // the response has one character too many.
  lemma WrongEndingIsNoTypo(response: string, correct: string)
    requires |response| >= 2 && |correct| >= 2
    requires response[|response| - 2] != correct[|correct| - 2] || response[|response| - 1] != correct[|correct| - 1]
    ensures IsSpellingError(response, correct) <==> Lev(response, correct) == 1 && |response| == |correct| + 1
  {
  }

  // ----- Stage order -----

  datatype ErrorType =
    | NoError | ScriptConfusion | SpellingError | Fossilization
    | Avoidance | Transfer | Overgeneralization | General

  predicate IsSpace(c: char) {
    var n := c as int;
    || 9 <= n <= 13 || 28 <= n <= 32 || n == 0x85 || n == 0xA0 || n == 0x1680
    || 0x2000 <= n <= 0x200A || n == 0x2028 || n == 0x2029 || n == 0x202F || n == 0x205F || n == 0x3000
  }

  // The first position from i on that holds no space.
  function SkipSpaces(s: string, i: nat): (lo: nat)
    requires i <= |s|
    ensures i <= lo <= |s|
    decreases |s| - i
  {
    if i < |s| && IsSpace(s[i]) then SkipSpaces(s, i + 1) else i
  }

  // The end of the stretch from i to j without the spaces that close it.
  function SkipSpacesBack(s: string, i: nat, j: nat): (hi: nat)
    requires i <= j <= |s|
    ensures i <= hi <= j
  {
    if i < j && IsSpace(s[j - 1]) then SkipSpacesBack(s, i, j - 1) else j
  }

  function Strip(s: string): string {
    var lo := SkipSpaces(s, 0);
    s[lo..SkipSpacesBack(s, lo, |s|)]
  }

  ghost predicate AllSpace(s: string) {
    forall i :: 0 <= i < |s| ==> IsSpace(s[i])
  }

  lemma {:induction false} SkippedAreSpaces(s: string, i: nat)
    requires i <= |s|
    ensures AllSpace(s[i..SkipSpaces(s, i)])
    ensures SkipSpaces(s, i) < |s| ==> !IsSpace(s[SkipSpaces(s, i)])
    decreases |s| - i
  {
    if i < |s| && IsSpace(s[i]) {
      SkippedAreSpaces(s, i + 1);
      assert s[i..SkipSpaces(s, i)] == [s[i]] + s[i + 1..SkipSpaces(s, i)];
    }
  }

  lemma {:induction false} SkippedBackAreSpaces(s: string, i: nat, j: nat)
    requires i <= j <= |s|
    ensures AllSpace(s[SkipSpacesBack(s, i, j)..j])
    ensures i < SkipSpacesBack(s, i, j) ==> !IsSpace(s[SkipSpacesBack(s, i, j) - 1])
  {
    if i < j && IsSpace(s[j - 1]) {
      SkippedBackAreSpaces(s, i, j - 1);
      var hi := SkipSpacesBack(s, i, j);
      assert s[hi..j] == s[hi..j - 1] + [s[j - 1]];
    }
  }

  // Stripping removes spaces at both ends, and all of them.
  lemma StripRemovesSpaces(s: string) returns (left: string, right: string)
    ensures s == left + Strip(s) + right && AllSpace(left) && AllSpace(right)
    ensures Strip(s) != "" ==> !IsSpace(Strip(s)[0]) && !IsSpace(Strip(s)[|Strip(s)| - 1])
  {
    var lo := SkipSpaces(s, 0);
    var hi := SkipSpacesBack(s, lo, |s|);
    SkippedAreSpaces(s, 0);
    SkippedBackAreSpaces(s, lo, |s|);
    left, right := s[..lo], s[hi..];
    assert s[0..lo] == left && s[hi..|s|] == right;
    assert s[..lo] + s[lo..hi] + s[hi..] == s;
  }

  // The spaces, one by one: tabs, line ends, separators, blanks of all widths.
  lemma SpacesAre(c: char)
    ensures IsSpace(c) <==>
              c as int in {9, 10, 11, 12, 13, 28, 29, 30, 31, 32, 133, 160, 5760, 8192, 8193, 8194, 8195, 8196, 8197, 8198, 8199,
                           8200, 8201, 8202, 8232, 8233, 8239, 8287, 12288}
  {
  }

  predicate IsCyrillic(c: char) {
    0x410 <= c as int <= 0x44F || c as int == 0x401 || c as int == 0x451
  }

  predicate IsLatin(c: char) {
    'a' <= c <= 'z' || 'A' <= c <= 'Z'
  }

  predicate MixesScripts(s: string) {
    (exists c :: c in s && IsCyrillic(c)) && exists c :: c in s && IsLatin(c)
  }

  // The code points of both alphabets: twice twenty-six Latin letters, and sixty-four Cyrillic
  // ones in a row with the two forms of io apart from them.
  lemma AlphabetsAre(c: char)
    ensures IsLatin(c) <==> 65 <= c as int < 65 + 26 || 97 <= c as int < 97 + 26
    ensures IsCyrillic(c) <==> c as int in {1025, 1105} || 1040 <= c as int < 1040 + 64
  {
  }

  // A text that keeps to one of them does not mix scripts, and any other does.
  lemma MixesIff(s: string)
    ensures !MixesScripts(s) <==> (forall c :: c in s ==> !IsLatin(c)) || (forall c :: c in s ==> !IsCyrillic(c))
  {
  }

  // How often this exact response occurs among past errors; an entry may lack a response.
  function CountSameError(response: string, history: seq<Option<string>>): (n: nat)
    ensures n == multiset(history)[Some(response)]
  {
    if history == [] then 0
    else
      assert history == [history[0]] + history[1..];
      (if history[0] == Some(response) then 1 else 0) + CountSameError(response, history[1..])
  }

  method ClassifyError(response: string, correct: string, history: seq<Option<string>>, late: ErrorType)
    returns (verdict: ErrorType)
    requires late.Avoidance? || late.Transfer? || late.Overgeneralization? || late.General?
    ensures verdict == NoError <==> Strip(response) == Strip(correct)
    ensures verdict == ScriptConfusion <==>
              Strip(response) != Strip(correct) && MixesScripts(response)
    ensures verdict == SpellingError <==>
              && Strip(response) != Strip(correct)
              && !MixesScripts(response)
              && IsSpellingError(response, correct)
    ensures verdict == Fossilization <==>
              && Strip(response) != Strip(correct)
              && !MixesScripts(response)
              && !IsSpellingError(response, correct)
              && multiset(history)[Some(response)] >= 5
    ensures !(verdict.NoError? || verdict.ScriptConfusion? || verdict.SpellingError? || verdict.Fossilization?) ==> verdict == late
  {
    if Strip(response) == Strip(correct) {
      return NoError;
    }
    if MixesScripts(response) {
      return ScriptConfusion;
    }
    var note := CheckSpelling(response, correct);
    if note.Some? {
      return SpellingError;
    }
    if CountSameError(response, history) >= 5 {
      return Fossilization;
    }
    return late;
  }
}
