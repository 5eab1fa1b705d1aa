/** What the typing box shows and sends, told from the keys and pastes that it got. */
module TypingHistory {
  import opened Options
  import opened Typing

  /** The box as key n finds it. */
  function Before(words: seq<string>, distance: int, ks: seq<Key>, n: nat): Box
    requires n <= |ks|
  {
    AfterKeys(words, distance, ks[..n])
  }

  /** A letter, as the box sees it: one character that is no space. */
  predicate IsLetter(k: Key) {
    k.KeyDown? && |k.key| == 1 && k.key != " "
  }

  /** The word to type next; there is none past the last. */
  function Current(words: seq<string>, b: Box): string {
    if b.wordIndex < |words| then words[b.wordIndex] else ""
  }

  /** A space upon the whole of a word that is not empty, or a change that makes the
      whole of the last word. */
  predicate Finishes(words: seq<string>, b: Box, k: Key) {
    match k
    case KeyDown(key, _, _) => key == " " && b.input != "" && b.input == Current(words, b)
    case Change(value, _, _) => b.wordIndex == |words| - 1 && value == Current(words, b)
  }

  /** A change to some other beginning of the word. */
  predicate Accepts(words: seq<string>, b: Box, k: Key) {
    k.Change? && k.value <= Current(words, b) && !Finishes(words, b, k)
  }

  predicate WrongLetter(words: seq<string>, b: Box, k: Key) {
    IsLetter(k) && !(|b.input| < |Current(words, b)| && k.key == [Current(words, b)[|b.input|]])
  }

  /** One key: a word completed is counted and announced, whose pace runs from the first. */
  lemma KeyTells(words: seq<string>, distance: int, b: Box, k: Key)
    ensures var c := Handled(b, words, distance, k);
      && (if Finishes(words, b, k) then
            && c.wordIndex == b.wordIndex + 1 && |c.sent| == |b.sent| + 1 && b.sent <= c.sent
            && c.startedAt == Some(if b.startedAt.Some? then b.startedAt.value else k.start)
            && c.sent[|b.sent|].pace == Pace(c.sent[|b.sent|].words, k.now - c.startedAt.value)
          else c.wordIndex == b.wordIndex && c.sent == b.sent && c.startedAt == b.startedAt)
      && c.input == (if Finishes(words, b, k) then "" else if Accepts(words, b, k) then k.value else b.input)
      && c.error == (if Finishes(words, b, k) then false
                     else if IsLetter(k) then WrongLetter(words, b, k)
                     else b.error && !(k.KeyDown? && k.key == "Backspace"))
  {
    if Finishes(words, b, k) {
      assert Handled(b, words, distance, k) == Completed(b, distance, k.start, k.now);
    }
  }

  predicate FinishesAt(words: seq<string>, distance: int, ks: seq<Key>, n: nat) {
    n < |ks| && Finishes(words, Before(words, distance, ks, n), ks[n])
  }

  predicate AcceptsAt(words: seq<string>, distance: int, ks: seq<Key>, n: nat) {
    n < |ks| && Accepts(words, Before(words, distance, ks, n), ks[n])
  }

  /** No word was completed by keys n and on. */
  ghost predicate NoneFrom(words: seq<string>, distance: int, ks: seq<Key>, n: nat) {
    forall j: nat :: n <= j < |ks| ==> !FinishesAt(words, distance, ks, j)
  }

  ghost predicate NoneUntil(words: seq<string>, distance: int, ks: seq<Key>, n: nat) {
    forall j: nat :: j < n && j < |ks| ==> !FinishesAt(words, distance, ks, j)
  }

  /** before is ks without its last key. */
  predicate ButLast(before: seq<Key>, ks: seq<Key>) {
    |ks| == |before| + 1 && before == ks[..|before|]
  }

  lemma EarlierKeys(words: seq<string>, distance: int, ks: seq<Key>, before: seq<Key>)
    requires ButLast(before, ks)
    ensures forall j: nat :: j < |before| ==>
              (FinishesAt(words, distance, before, j) <==> FinishesAt(words, distance, ks, j))
    ensures forall j: nat :: j < |before| ==>
              (AcceptsAt(words, distance, before, j) <==> AcceptsAt(words, distance, ks, j))
  {
    forall j: nat | j < |before|
      ensures FinishesAt(words, distance, before, j) <==> FinishesAt(words, distance, ks, j)
      ensures AcceptsAt(words, distance, before, j) <==> AcceptsAt(words, distance, ks, j)
    {
      assert before[..j] == ks[..j];
    }
  }

  lemma NoneUntilBefore(words: seq<string>, distance: int, ks: seq<Key>, before: seq<Key>, n: nat)
    requires ButLast(before, ks) && n <= |before|
    ensures NoneUntil(words, distance, ks, n) <==> NoneUntil(words, distance, before, n)
  {
    EarlierKeys(words, distance, ks, before);
    if NoneUntil(words, distance, ks, n) {
      forall j: nat | j < n && j < |before| ensures !FinishesAt(words, distance, before, j) {
        assert !FinishesAt(words, distance, ks, j);
      }
    } else {
      var j: nat :| j < n && j < |ks| && FinishesAt(words, distance, ks, j);
      assert FinishesAt(words, distance, before, j);
    }
  }

  lemma NoneFromBefore(words: seq<string>, distance: int, ks: seq<Key>, before: seq<Key>, n: nat)
    requires ButLast(before, ks) && n <= |before|
    ensures NoneFrom(words, distance, ks, n) <==>
            NoneFrom(words, distance, before, n) && !FinishesAt(words, distance, ks, |before|)
  {
    EarlierKeys(words, distance, ks, before);
    if NoneFrom(words, distance, ks, n) {
      forall j: nat | n <= j < |before| ensures !FinishesAt(words, distance, before, j) {
        assert !FinishesAt(words, distance, ks, j);
      }
    } else {
      var j: nat :| n <= j < |ks| && FinishesAt(words, distance, ks, j);
      assert j < |before| ==> FinishesAt(words, distance, before, j);
    }
  }

  /** Key n completed the first word. */
  ghost predicate FirstAt(words: seq<string>, distance: int, ks: seq<Key>, n: nat) {
    FinishesAt(words, distance, ks, n) && NoneUntil(words, distance, ks, n)
  }

  lemma FirstNext(words: seq<string>, distance: int, ks: seq<Key>, before: seq<Key>, n: nat)
    requires ButLast(before, ks) && n < |before|
    ensures FirstAt(words, distance, ks, n) <==> FirstAt(words, distance, before, n)
  {
    NoneUntilBefore(words, distance, ks, before, n);
    EarlierKeys(words, distance, ks, before);
  }

  lemma {:induction false} SomeFirst(words: seq<string>, distance: int, ks: seq<Key>, n: nat) returns (first: nat)
    requires FinishesAt(words, distance, ks, n)
    ensures first <= n && FirstAt(words, distance, ks, first)
    decreases n
  {
    if NoneUntil(words, distance, ks, n) {
      first := n;
    } else {
      var j: nat :| j < n && j < |ks| && FinishesAt(words, distance, ks, j);
      first := SomeFirst(words, distance, ks, j);
    }
  }

  /** The clock starts as the first word is completed, and runs on. */
  lemma {:induction false} ClockStarts(words: seq<string>, distance: int, ks: seq<Key>, first: nat)
    requires FirstAt(words, distance, ks, first)
    ensures AfterKeys(words, distance, ks).startedAt == Some(ks[first].start)
  {
    var last := |ks| - 1;
    var before := ks[..last];
    KeyTells(words, distance, AfterKeys(words, distance, before), ks[last]);
    if first < last {
      FirstNext(words, distance, ks, before, first);
      ClockStarts(words, distance, before, first);
    } else {
      NoneUntilBefore(words, distance, ks, before, last);
      ClockWaits(words, distance, before);
    }
  }

  lemma {:induction false} ClockWaits(words: seq<string>, distance: int, ks: seq<Key>)
    requires NoneUntil(words, distance, ks, |ks|)
    ensures AfterKeys(words, distance, ks).startedAt.None?
  {
    if |ks| > 0 {
      var last := |ks| - 1;
      var before := ks[..last];
      NoneUntilBefore(words, distance, ks, before, last);
      ClockWaits(words, distance, before);
      assert !FinishesAt(words, distance, ks, last);
      KeyTells(words, distance, AfterKeys(words, distance, before), ks[last]);
    }
  }

  lemma {:induction false} SentStays(words: seq<string>, distance: int, ks: seq<Key>, n: nat)
    requires n <= |ks|
    ensures Before(words, distance, ks, n).sent <= AfterKeys(words, distance, ks).sent
    decreases |ks|
  {
    if n == |ks| {
      assert ks[..n] == ks;
    } else {
      SentStays(words, distance, ks[..|ks| - 1], n);
      assert ks[..|ks| - 1][..n] == ks[..n];
      KeyTells(words, distance, AfterKeys(words, distance, ks[..|ks| - 1]), ks[|ks| - 1]);
    }
  }

  lemma UpTo(words: seq<string>, distance: int, ks: seq<Key>, j: nat, n: nat)
    requires j < n <= |ks|
    ensures FinishesAt(words, distance, ks[..n], j) <==> FinishesAt(words, distance, ks, j)
    ensures Before(words, distance, ks[..n], j) == Before(words, distance, ks, j)
  {
    assert ks[..n][..j] == ks[..j];
  }

  lemma FirstUpTo(words: seq<string>, distance: int, ks: seq<Key>, first: nat, n: nat)
    requires FirstAt(words, distance, ks, first) && first < n <= |ks|
    ensures FirstAt(words, distance, ks[..n], first)
  {
    UpTo(words, distance, ks, first, n);
    forall j: nat | j < first ensures !FinishesAt(words, distance, ks[..n], j) {
      UpTo(words, distance, ks, j, n);
    }
  }

  lemma PaceNow(words: seq<string>, distance: int, ks: seq<Key>, first: nat, n: nat)
    requires FirstAt(words, distance, ks, first) && |ks| == n + 1 && FinishesAt(words, distance, ks, n)
    ensures var k, sent := |Before(words, distance, ks, n).sent|, AfterKeys(words, distance, ks).sent;
      k < |sent| && sent[k].pace == Pace(sent[k].words, ks[n].now - ks[first].start)
  {
    ClockStarts(words, distance, ks, first);
    KeyTells(words, distance, Before(words, distance, ks, n), ks[n]);
  }

  /** Every message is sent by a key that completes a word, and stays as sent; its pace
      is that of all words so far over the time since the first of them was completed. */
  lemma PaceSinceFirstWord(words: seq<string>, distance: int, ks: seq<Key>, first: nat, n: nat)
    requires FirstAt(words, distance, ks, first) && FinishesAt(words, distance, ks, n)
    ensures var k, sent := |Before(words, distance, ks, n).sent|, AfterKeys(words, distance, ks).sent;
      k < |sent| && sent[k].pace == Pace(sent[k].words, ks[n].now - ks[first].start)
  {
    assert first <= n;
    FirstUpTo(words, distance, ks, first, n + 1);
    UpTo(words, distance, ks, n, n + 1);
    PaceNow(words, distance, ks[..n + 1], first, n);
    SentStays(words, distance, ks, n + 1);
  }

  /** And there are as many messages as keys that completed a word. */
  function Finished(words: seq<string>, distance: int, ks: seq<Key>): nat {
    if |ks| == 0 then 0
    else Finished(words, distance, ks[..|ks| - 1]) + if FinishesAt(words, distance, ks, |ks| - 1) then 1 else 0
  }

  lemma {:induction false} SentAreFinished(words: seq<string>, distance: int, ks: seq<Key>)
    ensures |AfterKeys(words, distance, ks).sent| == Finished(words, distance, ks)
    ensures AfterKeys(words, distance, ks).wordIndex == Finished(words, distance, ks)
  {
    if |ks| > 0 {
      SentAreFinished(words, distance, ks[..|ks| - 1]);
      KeyTells(words, distance, AfterKeys(words, distance, ks[..|ks| - 1]), ks[|ks| - 1]);
    }
  }

  // ---------------------------------------------------------- what the box shows

  /** Key n is the latest change that was kept, and no word was completed since. */
  ghost predicate ShowsAt(words: seq<string>, distance: int, ks: seq<Key>, n: nat) {
    && AcceptsAt(words, distance, ks, n) && NoneFrom(words, distance, ks, n) && NoneKept(words, distance, ks, n)
  }

  ghost predicate NoneKept(words: seq<string>, distance: int, ks: seq<Key>, n: nat) {
    forall j: nat :: n < j < |ks| ==> !AcceptsAt(words, distance, ks, j)
  }

  lemma NoneKeptBefore(words: seq<string>, distance: int, ks: seq<Key>, before: seq<Key>, n: nat)
    requires ButLast(before, ks) && n < |before|
    ensures NoneKept(words, distance, ks, n) <==>
            NoneKept(words, distance, before, n) && !AcceptsAt(words, distance, ks, |before|)
  {
    EarlierKeys(words, distance, ks, before);
    if NoneKept(words, distance, ks, n) {
      forall j: nat | n < j < |before| ensures !AcceptsAt(words, distance, before, j) {
        assert !AcceptsAt(words, distance, ks, j);
      }
    } else {
      var j: nat :| n < j < |ks| && AcceptsAt(words, distance, ks, j);
      assert j < |before| ==> AcceptsAt(words, distance, before, j);
    }
  }

  lemma ShowsNext(words: seq<string>, distance: int, ks: seq<Key>, before: seq<Key>, n: nat)
    requires ButLast(before, ks) && n < |before|
    ensures ShowsAt(words, distance, ks, n) <==>
            && ShowsAt(words, distance, before, n)
            && !FinishesAt(words, distance, ks, |before|) && !AcceptsAt(words, distance, ks, |before|)
  {
    NoneFromBefore(words, distance, ks, before, n);
    NoneKeptBefore(words, distance, ks, before, n);
    EarlierKeys(words, distance, ks, before);
  }

  lemma ShowsNow(words: seq<string>, distance: int, ks: seq<Key>, before: seq<Key>)
    requires ButLast(before, ks)
    ensures ShowsAt(words, distance, ks, |before|) <==> AcceptsAt(words, distance, ks, |before|)
  {
    NoneFromBefore(words, distance, ks, before, |before|);
  }

  lemma InputNow(words: seq<string>, distance: int, ks: seq<Key>, before: seq<Key>)
    requires ButLast(before, ks)
    ensures AfterKeys(words, distance, ks).input ==
            if FinishesAt(words, distance, ks, |before|) then ""
            else if AcceptsAt(words, distance, ks, |before|) then ks[|before|].value
            else AfterKeys(words, distance, before).input
  {
    KeyTells(words, distance, AfterKeys(words, distance, before), ks[|before|]);
  }

  lemma {:induction false} InputShows(words: seq<string>, distance: int, ks: seq<Key>, n: nat)
    requires ShowsAt(words, distance, ks, n)
    ensures AfterKeys(words, distance, ks).input == ks[n].value
    decreases |ks|
  {
    var last := |ks| - 1;
    InputNow(words, distance, ks, ks[..last]);
    if n < last {
      ShowsNext(words, distance, ks, ks[..last], n);
      InputShows(words, distance, ks[..last], n);
    } else {
      assert !FinishesAt(words, distance, ks, n);
    }
  }

  ghost predicate ShowsNothing(words: seq<string>, distance: int, ks: seq<Key>) {
    forall n: nat :: !ShowsAt(words, distance, ks, n)
  }

  lemma {:induction false} InputEmpty(words: seq<string>, distance: int, ks: seq<Key>)
    requires ShowsNothing(words, distance, ks)
    ensures AfterKeys(words, distance, ks).input == ""
  {
    if |ks| > 0 {
      var last := |ks| - 1;
      var before := ks[..last];
      InputNow(words, distance, ks, before);
      ShowsNow(words, distance, ks, before);
      if !FinishesAt(words, distance, ks, last) {
        forall n: nat ensures !ShowsAt(words, distance, before, n) {
          if n < last {
            ShowsNext(words, distance, ks, before, n);
          }
        }
        InputEmpty(words, distance, before);
      }
    }
  }

  /** The input is the latest change kept since the last word was completed, and empty
      where there was none. */
  lemma InputIsLatest(words: seq<string>, distance: int, ks: seq<Key>)
    ensures forall n: nat :: ShowsAt(words, distance, ks, n) ==> AfterKeys(words, distance, ks).input == ks[n].value
    ensures ShowsNothing(words, distance, ks) ==> AfterKeys(words, distance, ks).input == ""
  {
    forall n: nat | ShowsAt(words, distance, ks, n) ensures AfterKeys(words, distance, ks).input == ks[n].value {
      InputShows(words, distance, ks, n);
    }
    if ShowsNothing(words, distance, ks) {
      InputEmpty(words, distance, ks);
    }
  }

  lemma NextLetter(input: string, word: string, key: string)
    requires input <= word && |key| == 1
    ensures input + key <= word <==> |input| < |word| && key == [word[|input|]]
  {
    if input + key <= word {
      assert (input + key)[|input|] == word[|input|] == key[0];
    }
  }

  /** The two handlers agree: in every state that keys can lead to, a letter is kept from
      the browser if and only if the change it would make, at the end of the input, would
      be dropped. */
  lemma PreventedIff(words: seq<string>, distance: int, ks: seq<Key>, k: Key, start: int, now: int)
    requires |words| > 0 && IsLetter(k)
    ensures var b := AfterKeys(words, distance, ks);
      Prevented(b, words, k.key) <==> Changed(b, words, distance, b.input + k.key, start, now) == b
  {
    AlwaysTidy(words, distance, ks);
    var b := AfterKeys(words, distance, ks);
    NextLetter(b.input, WordAt(words, b.wordIndex), k.key);
  }

  predicate WrongAt(words: seq<string>, distance: int, ks: seq<Key>, n: nat) {
    n < |ks| && WrongLetter(words, Before(words, distance, ks, n), ks[n])
  }

  predicate Clears(k: Key) {
    IsLetter(k) || (k.KeyDown? && k.key == "Backspace")
  }

  /** Key n was a wrong letter, and no letter or backspace came and no word was
      completed since. */
  ghost predicate FlagsAt(words: seq<string>, distance: int, ks: seq<Key>, n: nat) {
    && WrongAt(words, distance, ks, n) && NoneFrom(words, distance, ks, n)
    && forall j: nat :: n < j < |ks| ==> !Clears(ks[j])
  }

  lemma FlagsNext(words: seq<string>, distance: int, ks: seq<Key>, before: seq<Key>, n: nat)
    requires ButLast(before, ks) && n < |before|
    ensures FlagsAt(words, distance, ks, n) <==>
            && FlagsAt(words, distance, before, n)
            && !FinishesAt(words, distance, ks, |before|) && !Clears(ks[|before|])
  {
    assert before[..n] == ks[..n];
    NoneFromBefore(words, distance, ks, before, n);
  }

  lemma FlagsNow(words: seq<string>, distance: int, ks: seq<Key>, before: seq<Key>)
    requires ButLast(before, ks)
    ensures FlagsAt(words, distance, ks, |before|) <==> WrongAt(words, distance, ks, |before|)
  {
    NoneFromBefore(words, distance, ks, before, |before|);
  }

  ghost predicate Flagged(words: seq<string>, distance: int, ks: seq<Key>) {
    exists n: nat :: FlagsAt(words, distance, ks, n)
  }

  lemma FlagComes(words: seq<string>, distance: int, ks: seq<Key>, before: seq<Key>)
    requires ButLast(before, ks) && Flagged(words, distance, ks)
    ensures
      || WrongAt(words, distance, ks, |before|)
      || (Flagged(words, distance, before) && !FinishesAt(words, distance, ks, |before|) && !Clears(ks[|before|]))
  {
    var n: nat :| FlagsAt(words, distance, ks, n);
    if n < |before| {
      FlagsNext(words, distance, ks, before, n);
    } else {
      FlagsNow(words, distance, ks, before);
    }
  }

  lemma FlagStays(words: seq<string>, distance: int, ks: seq<Key>, before: seq<Key>)
    requires ButLast(before, ks)
    requires
      || WrongAt(words, distance, ks, |before|)
      || (Flagged(words, distance, before) && !FinishesAt(words, distance, ks, |before|) && !Clears(ks[|before|]))
    ensures Flagged(words, distance, ks)
  {
    if WrongAt(words, distance, ks, |before|) {
      FlagsNow(words, distance, ks, before);
    } else {
      var n: nat :| FlagsAt(words, distance, before, n);
      FlagsNext(words, distance, ks, before, n);
    }
  }

  lemma FlaggedNext(words: seq<string>, distance: int, ks: seq<Key>, before: seq<Key>)
    requires ButLast(before, ks)
    ensures Flagged(words, distance, ks) <==>
      || WrongAt(words, distance, ks, |before|)
      || (Flagged(words, distance, before) && !FinishesAt(words, distance, ks, |before|) && !Clears(ks[|before|]))
  {
    if Flagged(words, distance, ks) {
      FlagComes(words, distance, ks, before);
    } else if
      || WrongAt(words, distance, ks, |before|)
      || (Flagged(words, distance, before) && !FinishesAt(words, distance, ks, |before|) && !Clears(ks[|before|]))
    {
      FlagStays(words, distance, ks, before);
    }
  }

  /** The letter is marked wrong if and only if the latest of letters, backspaces and
      completed words was a wrong letter. */
  lemma {:induction false} ErrorIff(words: seq<string>, distance: int, ks: seq<Key>)
    ensures AfterKeys(words, distance, ks).error <==> Flagged(words, distance, ks)
  {
    if |ks| > 0 {
      var last := |ks| - 1;
      var before := ks[..last];
      ErrorIff(words, distance, before);
      FlaggedNext(words, distance, ks, before);
      KeyTells(words, distance, AfterKeys(words, distance, before), ks[last]);
    }
  }
}
