/** The typing box in the browser, the prompt it is given, and what its telemetry
    does to the player's place in the race. */
module Typing {
  import opened Options
  import opened RoomModel
  import opened RoomHistory
  import opened Shared

  // ---------------------------------------------------------------- the prompt

  /** JavaScript's split(" "): pieces between single spaces, empty ones included. */
  function Split(s: string): (r: seq<string>)
    ensures |r| > 0
  {
    if |s| == 0 then [""]
    else
      var r := Split(s[..|s| - 1]);
      var c := s[|s| - 1];
      if c == ' ' then r + [""] else r[|r| - 1 := r[|r| - 1] + [c]]
  }

  /** Go's strings.Join(ws, " "). */
  function Join(ws: seq<string>): string {
    if |ws| == 0 then ""
    else if |ws| == 1 then ws[0]
    else Join(ws[..|ws| - 1]) + [' '] + ws[|ws| - 1]
  }

  function Spaces(s: string): nat {
    if |s| == 0 then 0 else Spaces(s[..|s| - 1]) + if s[|s| - 1] == ' ' then 1 else 0
  }

  function AllSpaces(ws: seq<string>): nat {
    if |ws| == 0 then 0 else AllSpaces(ws[..|ws| - 1]) + Spaces(ws[|ws| - 1])
  }

  predicate SpaceFree(ws: seq<string>) {
    forall k :: 0 <= k < |ws| ==> ' ' !in ws[k]
  }

  lemma {:induction false} SpacesJoin(a: string, b: string)
    ensures Spaces(a + b) == Spaces(a) + Spaces(b)
  {
    if |b| == 0 {
      assert a + b == a;
    } else {
      SpacesJoin(a, b[..|b| - 1]);
      assert (a + b)[..|a + b| - 1] == a + b[..|b| - 1];
    }
  }

  lemma {:induction false} NoSpaces(s: string)
    ensures Spaces(s) == 0 <==> ' ' !in s
  {
    if |s| > 0 {
      NoSpaces(s[..|s| - 1]);
      assert s == s[..|s| - 1] + [s[|s| - 1]];
    }
  }

  lemma {:induction false} NoSpacesAtAll(ws: seq<string>)
    ensures AllSpaces(ws) == 0 <==> SpaceFree(ws)
  {
    if |ws| > 0 {
      NoSpacesAtAll(ws[..|ws| - 1]);
      NoSpaces(ws[|ws| - 1]);
      assert SpaceFree(ws) <==> SpaceFree(ws[..|ws| - 1]) && ' ' !in ws[|ws| - 1];
    }
  }

  lemma {:induction false} SplitSize(s: string)
    ensures |Split(s)| == 1 + Spaces(s)
  {
    if |s| > 0 {
      SplitSize(s[..|s| - 1]);
    }
  }

  lemma {:induction false} SplitIsSpaceFree(s: string)
    ensures SpaceFree(Split(s))
  {
    if |s| > 0 {
      SplitIsSpaceFree(s[..|s| - 1]);
    }
  }

  lemma {:induction false} JoinSpaces(ws: seq<string>)
    requires |ws| > 0
    ensures Spaces(Join(ws)) == |ws| - 1 + AllSpaces(ws)
  {
    if |ws| == 1 {
      assert AllSpaces(ws[..0]) == 0;
    } else {
      JoinSpaces(ws[..|ws| - 1]);
      SpacesJoin(Join(ws[..|ws| - 1]), [' ']);
      SpacesJoin(Join(ws[..|ws| - 1]) + [' '], ws[|ws| - 1]);
      assert [' '][..0] == [];
    }
  }

  function Grown(r: seq<string>, w: string): seq<string>
    requires |r| > 0
  {
    r[|r| - 1 := r[|r| - 1] + w]
  }

  lemma GrownTwice(r: seq<string>, v: string, w: string)
    requires |r| > 0
    ensures Grown(Grown(r, v), w) == Grown(r, v + w)
  {
    assert r[|r| - 1] + v + w == r[|r| - 1] + (v + w);
  }

  lemma SplitOne(s: string, c: char)
    ensures Split(s + [c]) == if c == ' ' then Split(s) + [""] else Grown(Split(s), [c])
  {
    assert (s + [c])[..|s|] == s;
  }

  lemma {:induction false} SplitNext(s: string, w: string)
    requires ' ' !in w
    ensures Split(s + w) == Grown(Split(s), w)
  {
    if |w| == 0 {
      assert s + w == s && Split(s)[|Split(s)| - 1] + w == Split(s)[|Split(s)| - 1];
    } else {
      var before, c := w[..|w| - 1], w[|w| - 1];
      SplitNext(s, before);
      SplitOne(s + before, c);
      GrownTwice(Split(s), before, [c]);
      assert before + [c] == w && s + before + [c] == s + w;
    }
  }

  lemma SplitAppended(s: string, w: string)
    requires ' ' !in w
    ensures Split(s + [' '] + w) == Split(s) + [w]
  {
    SplitOne(s, ' ');
    SplitNext(s + [' '], w);
    assert "" + w == w;
  }

  lemma {:induction false} SplitJoin(ws: seq<string>)
    requires |ws| > 0 && SpaceFree(ws)
    ensures Split(Join(ws)) == ws
  {
    if |ws| == 1 {
      SplitNext("", ws[0]);
      assert "" + ws[0] == ws[0] && ws == [ws[0]];
    } else {
      var text := Join(ws[..|ws| - 1]);
      SplitJoin(ws[..|ws| - 1]);
      SplitAppended(text, ws[|ws| - 1]);
      assert ws[..|ws| - 1] + [ws[|ws| - 1]] == ws;
    }
  }

  /** The browser splits a joined prompt back into its words, and into as many, if
      and only if no word holds a space; every space in a word is one word more. */
  lemma PromptRoundTrip(ws: seq<string>)
    requires |ws| > 0
    ensures Split(Join(ws)) == ws <==> SpaceFree(ws)
    ensures |Split(Join(ws))| == |ws| <==> SpaceFree(ws)
    ensures |Split(Join(ws))| == |ws| + AllSpaces(ws)
  {
    SplitSize(Join(ws));
    JoinSpaces(ws);
    NoSpacesAtAll(ws);
    if SpaceFree(ws) {
      SplitJoin(ws);
    }
  }

  /** `picks` is what the word generator answers, call by call. */
  method GeneratePromptText(wordCount: nat, picks: seq<string>) returns (text: string)
    requires wordCount == |picks|
    ensures text == Join(picks)
  {
    var words := new string[wordCount];
    var i := 0;
    while i < wordCount
      invariant i <= wordCount
      invariant words[..i] == picks[..i]
    {
      words[i] := picks[i];
      i := i + 1;
    }
    assert words[..] == words[..i] && picks == picks[..i];
    text := Join(words[..]);
  }

  // -------------------------------------------------------------- the typing box

  datatype Sent = Sent(seqNo: nat, words: int, pace: int)

  datatype Box = Box(wordIndex: nat, input: string, error: bool, seqNo: nat, startedAt: Option<int>, sent: seq<Sent>)

  /** What the browser reports; `start` and `now` are the two clock readings the
      handler makes, should it complete a word. */
  datatype Key = KeyDown(key: string, start: int, now: int) | Change(value: string, start: int, now: int)

  const MOUNTED := Box(0, "", false, 0, None, [])

  function WordAt(words: seq<string>, i: nat): string {
    if i < |words| then words[i] else ""
  }

  /** Words per minute, rounded to the nearest whole number, halves upwards. */
  function Pace(words: int, elapsedMs: int): (r: int)
    ensures elapsedMs > 0 ==> -elapsedMs < 2 * (elapsedMs * r - 60000 * words) <= elapsedMs
    ensures elapsedMs <= 0 ==> r == 0
  {
    if elapsedMs > 0 then (2 * 60000 * words + elapsedMs) / (2 * elapsedMs) else 0
  }

  function Completed(b: Box, distance: int, start: int, now: int): Box {
    var done := b.wordIndex + 1;
    var count := if done <= distance then done else distance;
    var began := if b.startedAt.None? then start else b.startedAt.value;
    Box(done, "", false, b.seqNo + 1, Some(began), b.sent + [Sent(b.seqNo + 1, count, Pace(count, now - began))])
  }

  function Changed(b: Box, words: seq<string>, distance: int, value: string, start: int, now: int): Box {
    var word := WordAt(words, b.wordIndex);
    if !(value <= word) then b
    else if b.wordIndex + 1 == |words| && value == word then Completed(b, distance, start, now)
    else b.(input := value)
  }

  predicate IsNext(b: Box, words: seq<string>, key: string) {
    var word := WordAt(words, b.wordIndex);
    |b.input| < |word| && key == [word[|b.input|]]
  }

  function KeyedDown(b: Box, words: seq<string>, distance: int, key: string, start: int, now: int): Box {
    if |key| == 1 && key != " " then b.(error := !IsNext(b, words, key))
    else if key == "Backspace" then b.(error := false)
    else if key != " " || |b.input| == 0 || b.input != WordAt(words, b.wordIndex) then b
    else Completed(b, distance, start, now)
  }

  /** Whether the handler stops the browser from changing the input itself. */
  predicate Prevented(b: Box, words: seq<string>, key: string) {
    key == " " || (|key| == 1 && !IsNext(b, words, key))
  }

  function Handled(b: Box, words: seq<string>, distance: int, k: Key): Box {
    match k
    case KeyDown(key, start, now) => KeyedDown(b, words, distance, key, start, now)
    case Change(value, start, now) => Changed(b, words, distance, value, start, now)
  }

  class TypingBox {
    const words: seq<string>
    const distanceMeters: int
    var wordIndex: nat
    var input: string
    var error: bool
    var seqRef: nat
    var startedAt: Option<int>
    var sent: seq<Sent>

    function Value(): Box
      reads this
    {
      Box(wordIndex, input, error, seqRef, startedAt, sent)
    }

    constructor (promptText: string, distanceMeters: int)
      ensures words == Split(promptText) && this.distanceMeters == distanceMeters && Value() == MOUNTED
    {
      words := Split(promptText);
      this.distanceMeters := distanceMeters;
      wordIndex := 0;
      input := "";
      error := false;
      seqRef := 0;
      startedAt := None;
      sent := [];
    }

    method SendTelemetry(seqNo: nat, wordsCorrect: int, paceWatt: int)
      modifies this`sent
      ensures sent == old(sent) + [Sent(seqNo, wordsCorrect, paceWatt)]
    {
      sent := sent + [Sent(seqNo, wordsCorrect, paceWatt)];
    }

    method HandleChange(value: string, start: int, now: int)
      modifies this
      ensures Value() == Changed(old(Value()), words, distanceMeters, value, start, now)
    {
      var word := WordAt(words, wordIndex);
      if !(value <= word) {
        return;
      }
      input := value;
      if wordIndex == |words| - 1 && value == word {
        var newIndex := wordIndex + 1;
        wordIndex := newIndex;
        input := "";
        error := false;
        var wordsCompleted := if newIndex <= distanceMeters then newIndex else distanceMeters;
        if startedAt.None? {
          startedAt := Some(start);
        }
        seqRef := seqRef + 1;
        SendTelemetry(seqRef, wordsCompleted, Pace(wordsCompleted, now - startedAt.value));
      }
    }

    method HandleKeyDown(key: string, start: int, now: int) returns (prevented: bool)
      modifies this
      ensures Value() == KeyedDown(old(Value()), words, distanceMeters, key, start, now)
      ensures prevented == Prevented(old(Value()), words, key)
    {
      var word := WordAt(words, wordIndex);
      if |key| == 1 && key != " " {
        if |input| >= |word| || key != [word[|input|]] {
          error := true;
          return true;
        }
        error := false;
        return false;
      }
      if key == "Backspace" {
        error := false;
        return false;
      }
      if key != " " {
        return false;
      }
      if |input| == 0 {
        return true;
      }
      if input != word {
        return true;
      }
      var newIndex := wordIndex + 1;
      wordIndex := newIndex;
      input := "";
      error := false;
      var wordsCompleted := if newIndex <= distanceMeters then newIndex else distanceMeters;
      if startedAt.None? {
        startedAt := Some(start);
      }
      seqRef := seqRef + 1;
      SendTelemetry(seqRef, wordsCompleted, Pace(wordsCompleted, now - startedAt.value));
      return true;
    }
  }

  function AfterKeys(words: seq<string>, distance: int, ks: seq<Key>): Box {
    if |ks| == 0 then MOUNTED
    else Handled(AfterKeys(words, distance, ks[..|ks| - 1]), words, distance, ks[|ks| - 1])
  }

  /** Message k of a mount: numbered from one, reporting as many words as messages. */
  predicate Counts(m: Sent, k: nat, distance: int) {
    m.seqNo == k + 1 && m.words == if k + 1 <= distance then k + 1 else distance
  }

  predicate Tidy(b: Box, words: seq<string>, distance: int) {
    && b.wordIndex <= |words|
    && b.input <= WordAt(words, b.wordIndex)
    && b.seqNo == b.wordIndex == |b.sent|
    && forall k :: 0 <= k < |b.sent| ==> Counts(b.sent[k], k, distance)
  }

  lemma HandledTidy(b: Box, words: seq<string>, distance: int, k: Key)
    requires Tidy(b, words, distance) && |words| > 0
    ensures Tidy(Handled(b, words, distance, k), words, distance)
  {
  }

  /** Whatever is pressed, pasted or deleted, the input is a prefix of the word to
      type, and the messages sent count the words done, one by one. */
  lemma {:induction false} AlwaysTidy(words: seq<string>, distance: int, ks: seq<Key>)
    requires |words| > 0
    ensures Tidy(AfterKeys(words, distance, ks), words, distance)
  {
    if |ks| > 0 {
      AlwaysTidy(words, distance, ks[..|ks| - 1]);
      HandledTidy(AfterKeys(words, distance, ks[..|ks| - 1]), words, distance, ks[|ks| - 1]);
    }
  }

  // -------------------------------------------------------------- typing the text

  /** One printable key pressed: a keydown and, unless prevented, the character
      inserted at the end of the input. */
  datatype Press = Press(c: char, start: int, now: int)

  function Pressed(b: Box, words: seq<string>, distance: int, p: Press): Box {
    var down := KeyedDown(b, words, distance, [p.c], p.start, p.now);
    if Prevented(b, words, [p.c]) then down
    else Changed(down, words, distance, down.input + [p.c], p.start, p.now)
  }

  function AfterPresses(words: seq<string>, distance: int, ps: seq<Press>): Box {
    if |ps| == 0 then MOUNTED
    else Pressed(AfterPresses(words, distance, ps[..|ps| - 1]), words, distance, ps[|ps| - 1])
  }

  function Text(ps: seq<Press>): (s: string)
    ensures |s| == |ps|
  {
    if |ps| == 0 then "" else Text(ps[..|ps| - 1]) + [ps[|ps| - 1].c]
  }

  lemma {:induction false} PressesTidy(words: seq<string>, distance: int, ps: seq<Press>)
    requires |words| > 0
    ensures Tidy(AfterPresses(words, distance, ps), words, distance)
  {
    if |ps| > 0 {
      var b, p := AfterPresses(words, distance, ps[..|ps| - 1]), ps[|ps| - 1];
      PressesTidy(words, distance, ps[..|ps| - 1]);
      HandledTidy(b, words, distance, KeyDown([p.c], p.start, p.now));
      var down := KeyedDown(b, words, distance, [p.c], p.start, p.now);
      HandledTidy(down, words, distance, Change(down.input + [p.c], p.start, p.now));
    }
  }

  predicate NoneEmpty(ws: seq<string>) {
    forall k :: 0 <= k < |ws| ==> |ws[k]| > 0
  }

  /** `part` is `all` cut within a word, before its end. */
  predicate Cut(part: seq<string>, all: seq<string>) {
    && 0 < |part| <= |all|
    && part[..|part| - 1] == all[..|part| - 1]
    && part[|part| - 1] <= all[|part| - 1]
  }

  lemma CutGrows(part: seq<string>, all: seq<string>, c: char)
    requires Cut(part, all)
    ensures Cut(part, all + [""]) && Cut(part, Grown(all, [c]))
  {
  }

  /** The split of a prefix is the split of the whole, cut within a word. */
  lemma {:induction false} SplitPrefix(s: string, n: nat)
    requires n <= |s|
    ensures Cut(Split(s[..n]), Split(s))
    ensures n < |s| && |Split(s[..n])| == |Split(s)| ==> Split(s[..n]) != Split(s)
  {
    if n == |s| {
      assert s[..n] == s;
    } else {
      var before, c := s[..|s| - 1], s[|s| - 1];
      assert before[..n] == s[..n] && before + [c] == s;
      SplitPrefix(before, n);
      SplitOne(before, c);
      CutGrows(Split(s[..n]), Split(before), c);
    }
  }

  lemma TypeLetter(b: Box, words: seq<string>, distance: int, p: Press)
    requires b.wordIndex < |words| && p.c != ' ' && b.input + [p.c] <= words[b.wordIndex]
    ensures var r := Pressed(b, words, distance, p);
            if b.wordIndex + 1 == |words| && b.input + [p.c] == words[b.wordIndex] then r.wordIndex == |words|
            else r.wordIndex == b.wordIndex && r.input == b.input + [p.c]
  {
    assert [p.c] != " " by {
      assert [p.c][0] != " "[0];
    }
    assert (b.input + [p.c])[|b.input|] == p.c;
  }

  lemma TypeSpace(b: Box, words: seq<string>, distance: int, p: Press)
    requires b.wordIndex < |words| && p.c == ' ' && |b.input| > 0 && b.input == words[b.wordIndex]
    ensures var r := Pressed(b, words, distance, p); r.wordIndex == b.wordIndex + 1 && r.input == ""
  {
  }

  /** The box stands where this cut of the words ends. */
  predicate Keeping(b: Box, part: seq<string>)
    requires |part| > 0
  {
    b.wordIndex == |part| - 1 && b.input == part[|part| - 1]
  }

  /** Typing any part of the text leaves the box where that part ends, and typing
      all of it, and no less, completes every word. */
  lemma {:induction false} TypingAlong(text: string, distance: int, ps: seq<Press>)
    requires NoneEmpty(Split(text)) && |ps| <= |text| && Text(ps) == text[..|ps|]
    ensures |ps| < |text| ==> Keeping(AfterPresses(Split(text), distance, ps), Split(text[..|ps|]))
    ensures |ps| == |text| ==> AfterPresses(Split(text), distance, ps).wordIndex == |Split(text)|
  {
    var words := Split(text);
    if |ps| == 0 {
      assert text[..0] == "" && |text| > 0;
    } else {
      var n := |ps| - 1;
      TextBefore(text, ps);
      TypingAlong(text, distance, ps[..n]);
      SplitPrefix(text, n);
      SplitPrefix(text, n + 1);
      SplitOne(text[..n], text[n]);
      assert text[..n] + [text[n]] == text[..n + 1];
      if n + 1 == |text| {
        assert text[..n + 1] == text;
      }
      TypingOne(AfterPresses(words, distance, ps[..n]), words, distance, ps[n], Split(text[..n]), Split(text[..n + 1]));
    }
  }

  lemma TextBefore(text: string, ps: seq<Press>)
    requires 0 < |ps| <= |text| && Text(ps) == text[..|ps|]
    ensures Text(ps[..|ps| - 1]) == text[..|ps| - 1] && ps[|ps| - 1].c == text[|ps| - 1]
  {
    var n := |ps| - 1;
    assert Text(ps)[..n] == text[..|ps|][..n];
    assert Text(ps)[n] == text[..|ps|][n];
  }

  lemma TypingOne(b: Box, words: seq<string>, distance: int, p: Press, part: seq<string>, next: seq<string>)
    requires NoneEmpty(words) && Cut(part, words) && Cut(next, words) && Keeping(b, part)
    requires next == if p.c == ' ' then part + [""] else Grown(part, [p.c])
    ensures var r := Pressed(b, words, distance, p);
            if next == words then r.wordIndex == |words| else Keeping(r, next)
  {
    if p.c == ' ' {
      assert part == next[..|part|] == words[..|part|];
      TypeSpace(b, words, distance, p);
    } else {
      TypeLetter(b, words, distance, p);
      assert next[..|next| - 1] + [next[|next| - 1]] == next;
      assert |next| == |words| ==> words[..|next| - 1] + [words[|next| - 1]] == words;
    }
  }

  /** An empty word can never be typed, nor anything after it. */
  lemma {:induction false} EmptyWordBlocks(words: seq<string>, distance: int, ps: seq<Press>, e: nat)
    requires e < |words| && words[e] == ""
    ensures AfterPresses(words, distance, ps).wordIndex <= e
  {
    if |ps| > 0 {
      EmptyWordBlocks(words, distance, ps[..|ps| - 1], e);
      PressesTidy(words, distance, ps[..|ps| - 1]);
    }
  }

  /** Typing the text exactly completes every word if and only if no word is empty. */
  lemma TypingTheTextCompletes(text: string, distance: int, ps: seq<Press>)
    requires Text(ps) == text
    ensures AfterPresses(Split(text), distance, ps).wordIndex == |Split(text)| <==> NoneEmpty(Split(text))
  {
    if NoneEmpty(Split(text)) {
      assert text[..|ps|] == text;
      TypingAlong(text, distance, ps);
    } else {
      var e :| 0 <= e < |Split(text)| && |Split(text)[e]| == 0;
      EmptyWordBlocks(Split(text), distance, ps, e);
    }
  }

  // -------------------------------------------------------------- into the race

  /** Message k as the actor receives it from user u. */
  function Message(u: UserId, m: Sent): Event {
    Telemetry(u, m.seqNo, m.words, m.pace as real)
  }

  /** u's telemetry in the run, in the order of arrival. */
  function Heard(ins: seq<Input>, u: UserId): seq<Event> {
    if |ins| == 0 then []
    else if Speaks(Last(ins).ev, u) then Heard(Before(ins), u) + [Last(ins).ev] else Heard(Before(ins), u)
  }

  /** What has arrived is the first part of what was sent, in order. */
  predicate Delivered(heard: seq<Event>, u: UserId, sent: seq<Sent>) {
    |heard| <= |sent| && forall k :: 0 <= k < |heard| ==> heard[k] == Message(u, sent[k])
  }

  predicate AllCount(sent: seq<Sent>, distance: int) {
    forall k :: 0 <= k < |sent| ==> Counts(sent[k], k, distance)
  }

  /** u has just taken a seat, or has at least sent nothing yet. */
  predicate AtTheStart(p: People, u: UserId) {
    p.active && u in p.live && p.live[u].lastSeq == 0 && p.live[u].finishRank.None?
  }

  /** Interleave a player's messages with anything the others do: while the player
      stays in, the place in the race is taken at message `target`, not before. */
  lemma {:induction false} RankedOnTime(p: People, target: int, ins: seq<Input>, u: UserId, sent: seq<Sent>)
    requires AtTheStart(p, u) && LiveThroughout(p, target, ins, u) && target > 0
    requires AllCount(sent, target) && Delivered(Heard(ins, u), u, sent)
    ensures var q := March(p, target, ins).live[u];
            && March(p, target, ins).active
            && q.lastSeq == |Heard(ins, u)|
            && (q.finishRank.Some? <==> |Heard(ins, u)| >= target)
  {
    if |ins| > 0 {
      var heard := Heard(Before(ins), u);
      assert forall k :: 0 <= k < |heard| ==> heard[k] == Heard(ins, u)[k];
      RankedOnTime(p, target, Before(ins), u, sent);
      if Speaks(Last(ins).ev, u) {
        assert Last(ins).ev == Heard(ins, u)[|heard|] == Message(u, sent[|heard|]);
        assert Counts(sent[|heard|], |heard|, target);
      }
    }
  }

  /** Whatever the prompt, and whatever is pressed in the box, a player who stays in
      the active race is ranked exactly once as many messages have arrived as the race
      is long. */
  lemma TypistIsRankedOnTime(text: string, target: nat, ks: seq<Key>, p: People, ins: seq<Input>, u: UserId)
    requires target > 0 && AtTheStart(p, u) && LiveThroughout(p, target, ins, u)
    requires Delivered(Heard(ins, u), u, AfterKeys(Split(text), target, ks).sent)
    ensures March(p, target, ins).live[u].finishRank.Some? <==> |Heard(ins, u)| >= target
  {
    AlwaysTidy(Split(text), target, ks);
    RankedOnTime(p, target, ins, u, AfterKeys(Split(text), target, ks).sent);
  }

  /** Typing the prompt sends exactly as many messages as the race is long, and the
      player is ranked once they have all arrived, and no sooner. */
  lemma TypingThePromptFinishesTheRace(ws: seq<string>, ps: seq<Press>, p: People, ins: seq<Input>, u: UserId)
    requires |ws| > 0 && SpaceFree(ws) && NoneEmpty(ws) && Text(ps) == Join(ws)
    requires AtTheStart(p, u) && LiveThroughout(p, |ws|, ins, u)
    requires Delivered(Heard(ins, u), u, AfterPresses(Split(Join(ws)), |ws|, ps).sent)
    ensures var sent := AfterPresses(Split(Join(ws)), |ws|, ps).sent;
            && |sent| == |ws|
            && (March(p, |ws|, ins).live[u].finishRank.Some? <==> |Heard(ins, u)| == |sent|)
  {
    PromptRoundTrip(ws);
    TypingTheTextCompletes(Join(ws), |ws|, ps);
    PressesTidy(ws, |ws|, ps);
    RankedOnTime(p, |ws|, ins, u, AfterPresses(ws, |ws|, ps).sent);
  }
}
