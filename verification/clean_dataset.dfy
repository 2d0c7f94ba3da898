/**
  The fine-tuning dataset cleaner: text normalisation, the message validity filter, the
  per-conversation filter, the file-kind test and the mapping of evaluation items into
  conversations. Files and JSON are left to the caller; records are values.
*/
module CleanDataset {
  import opened Wrappers
  import opened Seqs
  import opened Text

  const ArabicYeh: char := '\U{064A}'
  const PersianYeh: char := '\U{06CC}'
  const ArabicKaf: char := '\U{0643}'
  const PersianKaf: char := '\U{06A9}'

  /** The emoji class `[\u{1F600}-\u{1F6FF}]`. */
  predicate IsEmoji(c: char) {
    '\U{1F600}' <= c <= '\U{1F6FF}'
  }

  /** The Persian form of one character: yeh and kaf are replaced, everything else is kept. */
  function PersianForm(c: char): char {
    if c == ArabicYeh then PersianYeh else if c == ArabicKaf then PersianKaf else c
  }

  /** Arabic yeh and kaf replaced by their Persian forms; every other character kept. */
  function ReplaceArabicLetters(s: string): (r: string)
    ensures |r| == |s|
    ensures forall i :: 0 <= i < |s| && s[i] == ArabicYeh ==> r[i] == PersianYeh
    ensures forall i :: 0 <= i < |s| && s[i] == ArabicKaf ==> r[i] == PersianKaf
    ensures forall i :: 0 <= i < |s| && s[i] != ArabicYeh && s[i] != ArabicKaf ==> r[i] == s[i]
    ensures forall i :: 0 <= i < |s| ==> r[i] != ArabicYeh && r[i] != ArabicKaf
  {
    seq(|s|, i requires 0 <= i < |s| => PersianForm(s[i]))
  }

  /** The replacement works character by character, so it keeps the content apart from the two
      letters: white space stays white space and nothing else becomes white space. */
  lemma {:induction false} ReplaceVisible(s: string)
    ensures Visible(ReplaceArabicLetters(s)) == ReplaceArabicLetters(Visible(s))
    decreases |s|
  {
    if s != [] {
      var r := ReplaceArabicLetters(s);
      ReplaceVisible(s[1..]);
      assert r[1..] == ReplaceArabicLetters(s[1..]);
      assert IsWhitespace(r[0]) <==> IsWhitespace(s[0]);
      var head := if IsWhitespace(s[0]) then [] else [s[0]];
      assert Visible(s) == head + Visible(s[1..]);
      assert ReplaceArabicLetters(head + Visible(s[1..]))
          == ReplaceArabicLetters(head) + ReplaceArabicLetters(Visible(s[1..]));
    } else {
      assert ReplaceArabicLetters(s) == [];
    }
  }

  /** The only white space is the plain space, and never two in a row. */
  predicate SingleSpaced(s: string) {
    forall i :: 0 <= i < |s| && IsWhitespace(s[i]) ==> s[i] == ' ' && (i + 1 < |s| ==> !IsWhitespace(s[i + 1]))
  }

  /** `replace(/\s+/g, " ")`: every run of white space becomes one space. */
  function CollapseWhitespace(s: string): (r: string)
    ensures r == [] <==> s == []
    ensures s != [] && !IsWhitespace(s[0]) ==> r[0] == s[0]
    ensures Visible(r) == Visible(s)
    decreases |s|
  {
    if s == [] then []
    else if IsWhitespace(s[0]) then
      var rest := CollapseWhitespace(TrimStart(s[1..]));
      VisibleTrimStart(s[1..]);
      assert ([' '] + rest)[1..] == rest;
      [' '] + rest
    else
      var rest := CollapseWhitespace(s[1..]);
      assert ([s[0]] + rest)[1..] == rest;
      [s[0]] + rest
  }

  /** The same rule read one character at a time: a character that is not white space is copied,
      the first white-space character of a run becomes a space, and the rest of the run is
      dropped. `afterSpace` says whether the previous character was white space. */
  function SpaceRuns(s: string, afterSpace: bool): string {
    if s == [] then []
    else if !IsWhitespace(s[0]) then [s[0]] + SpaceRuns(s[1..], false)
    else (if afterSpace then [] else [' ']) + SpaceRuns(s[1..], true)
  }

  /** Inside a run, skipping the rest of it and going on is the same as reading it. */
  lemma {:induction false} SpaceRunsAfterSpace(s: string)
    ensures SpaceRuns(s, true) == SpaceRuns(TrimStart(s), false)
    decreases |s|
  {
    if s != [] && IsWhitespace(s[0]) {
      SpaceRunsAfterSpace(s[1..]);
    }
  }

  /** Collapsing whole runs at once agrees with the character-by-character rule on every input. */
  lemma {:induction false} CollapseByCharacter(s: string)
    ensures CollapseWhitespace(s) == SpaceRuns(s, false)
    decreases |s|
  {
    if s != [] {
      if IsWhitespace(s[0]) {
        CollapseByCharacter(TrimStart(s[1..]));
        SpaceRunsAfterSpace(s[1..]);
      } else {
        CollapseByCharacter(s[1..]);
      }
    }
  }

  /** Collapsing introduces no character but the space. */
  lemma {:induction false} CollapseChars(s: string)
    ensures forall i :: 0 <= i < |CollapseWhitespace(s)| ==> CollapseWhitespace(s)[i] == ' ' || CollapseWhitespace(s)[i] in s
    decreases |s|
  {
    if s != [] {
      var t := if IsWhitespace(s[0]) then TrimStart(s[1..]) else s[1..];
      CollapseChars(t);
      var rest := CollapseWhitespace(t);
      var r := CollapseWhitespace(s);
      assert r == [r[0]] + rest;
      assert t == s[|s| - |t|..];
      forall i | 0 <= i < |r|
        ensures r[i] == ' ' || r[i] in s
      {
        if i > 0 {
          assert r[i] == rest[i - 1];
          assert rest[i - 1] == ' ' || rest[i - 1] in t;
        }
      }
    }
  }

  /** Collapsed text is single-spaced. */
  lemma {:induction false} CollapseResultSingleSpaced(s: string)
    ensures SingleSpaced(CollapseWhitespace(s))
    decreases |s|
  {
    if s != [] {
      if IsWhitespace(s[0]) {
        var t := TrimStart(s[1..]);
        CollapseResultSingleSpaced(t);
        SingleSpacedCons(' ', CollapseWhitespace(t));
      } else {
        CollapseResultSingleSpaced(s[1..]);
        SingleSpacedCons(s[0], CollapseWhitespace(s[1..]));
      }
    }
  }

  /** One more character in front keeps text single-spaced unless it is white space other than a
      space, or a space before white space. */
  lemma SingleSpacedCons(c: char, rest: string)
    requires SingleSpaced(rest)
    requires IsWhitespace(c) ==> c == ' ' && (rest == [] || !IsWhitespace(rest[0]))
    ensures SingleSpaced([c] + rest)
  {
    var r := [c] + rest;
    forall i | 0 <= i < |r| && IsWhitespace(r[i])
      ensures r[i] == ' ' && (i + 1 < |r| ==> !IsWhitespace(r[i + 1]))
    {
      if i > 0 {
        assert r[i] == rest[i - 1];
        if i + 1 < |r| {
          assert r[i + 1] == rest[i];
        }
      }
    }
  }

  /** Text that is already single-spaced is left unchanged by collapsing. */
  lemma {:induction false} CollapseSingleSpaced(s: string)
    requires SingleSpaced(s)
    ensures CollapseWhitespace(s) == s
    decreases |s|
  {
    if s != [] {
      SingleSpacedInfix(s, 1, |s|);
      CollapseSingleSpaced(s[1..]);
      CollapseHead(s);
    }
  }

  /** On single-spaced text collapsing keeps the first character and goes on with the rest. */
  lemma CollapseHead(s: string)
    requires SingleSpaced(s) && s != []
    ensures CollapseWhitespace(s) == [s[0]] + CollapseWhitespace(s[1..])
  {
    if IsWhitespace(s[0]) {
      assert s[1..] == [] || !IsWhitespace(s[1..][0]);
    }
  }

  /** Any stretch of single-spaced text is single-spaced. */
  lemma SingleSpacedInfix(s: string, a: nat, b: nat)
    requires SingleSpaced(s) && a <= b <= |s|
    ensures SingleSpaced(s[a..b])
  {
    forall i | 0 <= i < b - a && IsWhitespace(s[a..b][i])
      ensures s[a..b][i] == ' ' && (i + 1 < b - a ==> !IsWhitespace(s[a..b][i + 1]))
    {
      assert s[a..b][i] == s[a + i];
      if i + 1 < b - a {
        assert s[a..b][i + 1] == s[a + i + 1];
      }
    }
  }

  /** The position of the first emoji, or the length when there is none. */
  function FirstEmojiIndex(s: string): (i: nat)
    ensures i <= |s|
    ensures i < |s| ==> IsEmoji(s[i])
    ensures forall j :: 0 <= j < i ==> !IsEmoji(s[j])
  {
    if s == [] then 0
    else if IsEmoji(s[0]) then 0
    else 1 + FirstEmojiIndex(s[1..])
  }

  /** `replace(EMOJI_REGEX, "")` without the `g` flag: only the first emoji is deleted. */
  function RemoveFirstEmoji(s: string): (r: string)
    ensures var i := FirstEmojiIndex(s);
      (if i < |s| then |r| == |s| - 1 else r == s) && r[..i] == s[..i] && r[i..] == s[Min(i + 1, |s|)..]
  {
    DeleteAt(s, FirstEmojiIndex(s))
  }

  /** `s` without its element at `i`, or all of `s` when there is none. */
  function DeleteAt(s: string, i: nat): string {
    if i < |s| then s[..i] + s[i + 1..] else s
  }

  /** Deleting past the first character keeps that character in front. */
  lemma DeleteAtCons(s: string, i: nat)
    requires s != [] && 0 < i
    ensures DeleteAt(s, i) == [s[0]] + DeleteAt(s[1..], i - 1)
  {
    if i < |s| {
      assert s[..i] == [s[0]] + s[1..][..i - 1];
      assert s[i + 1..] == s[1..][i..];
    }
  }

  /** Emoji removal read from the front: a leading emoji is the one deleted; otherwise the first
      character stays and the removal goes on in the rest. */
  lemma RemoveFirstEmojiCons(s: string)
    requires s != []
    ensures RemoveFirstEmoji(s) == if IsEmoji(s[0]) then s[1..] else [s[0]] + RemoveFirstEmoji(s[1..])
  {
    if IsEmoji(s[0]) {
      assert RemoveFirstEmoji(s) == DeleteAt(s, 0);
      DeleteAtFront(s);
    } else {
      var k := FirstEmojiIndex(s[1..]);
      assert RemoveFirstEmoji(s) == DeleteAt(s, k + 1);
      assert RemoveFirstEmoji(s[1..]) == DeleteAt(s[1..], k);
      DeleteAtCons(s, k + 1);
    }
  }

  lemma DeleteAtFront(s: string)
    requires s != []
    ensures DeleteAt(s, 0) == s[1..]
  {
    assert s[..0] + s[1..] == s[1..];
  }

  /** Deleting the first emoji and dropping white space can be done in either order: emoji are
      not white space. */
  lemma {:induction false} RemoveFirstEmojiVisible(s: string)
    ensures Visible(RemoveFirstEmoji(s)) == RemoveFirstEmoji(Visible(s))
    decreases |s|
  {
    if s != [] {
      var h, t := s[0], s[1..];
      assert s == [h] + t;
      VisibleCons(h, t);
      RemoveFirstEmojiCons(s);
      if IsEmoji(h) {
        assert !IsWhitespace(h);
        RemoveFirstEmojiCons([h] + Visible(t));
        assert ([h] + Visible(t))[1..] == Visible(t);
      } else {
        RemoveFirstEmojiVisible(t);
        VisibleCons(h, RemoveFirstEmoji(t));
        if IsWhitespace(h) {
          assert Visible(s) == Visible(t);
          assert Visible(RemoveFirstEmoji(s)) == Visible(RemoveFirstEmoji(t));
        } else {
          assert Visible(s) == [h] + Visible(t);
          assert Visible(RemoveFirstEmoji(s)) == [h] + Visible(RemoveFirstEmoji(t));
          RemoveFirstEmojiCons([h] + Visible(t));
          assert ([h] + Visible(t))[1..] == Visible(t);
        }
      }
    } else {
      assert FirstEmojiIndex(s) == 0;
    }
  }

  /** How many emoji a text holds. */
  function EmojiCount(s: string): nat {
    if s == [] then 0 else (if IsEmoji(s[0]) then 1 else 0) + EmojiCount(s[1..])
  }

  lemma {:induction false} EmojiCountAppend(a: string, b: string)
    ensures EmojiCount(a + b) == EmojiCount(a) + EmojiCount(b)
    decreases |a|
  {
    if a != [] {
      assert (a + b)[1..] == a[1..] + b;
      EmojiCountAppend(a[1..], b);
    } else {
      assert a + b == b;
    }
  }

  lemma {:induction false} NoEmojiCount(s: string)
    requires forall j :: 0 <= j < |s| ==> !IsEmoji(s[j])
    ensures EmojiCount(s) == 0
    decreases |s|
  {
    if s != [] {
      NoEmojiCount(s[1..]);
    }
  }

  /** Exactly one emoji goes when there is any: a second one survives. */
  lemma RemoveFirstEmojiCount(s: string)
    ensures EmojiCount(RemoveFirstEmoji(s)) == if EmojiCount(s) == 0 then 0 else EmojiCount(s) - 1
  {
    var i := FirstEmojiIndex(s);
    NoEmojiCount(s[..i]);
    if i < |s| {
      assert s == s[..i] + ([s[i]] + s[i + 1..]);
      EmojiCountAppend(s[..i], [s[i]] + s[i + 1..]);
      assert ([s[i]] + s[i + 1..])[1..] == s[i + 1..];
      EmojiCountAppend(s[..i], s[i + 1..]);
    } else {
      assert s[..i] == s;
    }
  }

  /** Where a character of the emoji-stripped text came from. */
  lemma RemoveFirstEmojiAt(s: string, i: nat)
    requires i < |RemoveFirstEmoji(s)|
    ensures RemoveFirstEmoji(s)[i] == if i < FirstEmojiIndex(s) then s[i] else s[i + 1]
  {
    var k := FirstEmojiIndex(s);
    var r := RemoveFirstEmoji(s);
    if i < k {
      assert r[..k][i] == s[..k][i];
    } else {
      assert r[k..][i - k] == s[Min(k + 1, |s|)..][i - k];
    }
  }

  /** `normalizeText` on a present string: Persian letters, collapsed white space, trimmed, first
      emoji removed, in that order. */
  function NormalizeString(s: string): (r: string)
    ensures Visible(r) == RemoveFirstEmoji(ReplaceArabicLetters(Visible(s)))
    ensures forall i :: 0 <= i < |r| ==> r[i] != ArabicYeh && r[i] != ArabicKaf
    ensures forall i :: 0 <= i < |r| && IsWhitespace(r[i]) ==> r[i] == ' '
    ensures |r| <= |s|
  {
    var r := RemoveFirstEmoji(Trim(CollapseWhitespace(ReplaceArabicLetters(s))));
    NormalizedContent(s);
    CollapseShrinks(ReplaceArabicLetters(s));
    forall i | 0 <= i < |r|
      ensures r[i] != ArabicYeh && r[i] != ArabicKaf
      ensures IsWhitespace(r[i]) ==> r[i] == ' '
    {
      NormalizedChar(s, i);
    }
    r
  }

  /** The content of the normalised text: the input's characters other than white space, with
      the Persian letters in and the first emoji out. */
  lemma NormalizedContent(s: string)
    ensures Visible(RemoveFirstEmoji(Trim(CollapseWhitespace(ReplaceArabicLetters(s)))))
         == RemoveFirstEmoji(ReplaceArabicLetters(Visible(s)))
  {
    var collapsed := CollapseWhitespace(ReplaceArabicLetters(s));
    RemoveFirstEmojiVisible(Trim(collapsed));
    VisibleTrim(collapsed);
    ReplaceVisible(s);
  }

  /** Every character of the normalised text is a character of the collapsed text. */
  lemma NormalizedCharOrigin(s: string, i: nat)
    requires i < |RemoveFirstEmoji(Trim(CollapseWhitespace(ReplaceArabicLetters(s))))|
    ensures exists k :: (0 <= k < |CollapseWhitespace(ReplaceArabicLetters(s))|
      && CollapseWhitespace(ReplaceArabicLetters(s))[k] == RemoveFirstEmoji(Trim(CollapseWhitespace(ReplaceArabicLetters(s))))[i])
  {
    var collapsed := CollapseWhitespace(ReplaceArabicLetters(s));
    var trimmed := Trim(collapsed);
    var c := RemoveFirstEmoji(trimmed)[i];
    RemoveFirstEmojiAt(trimmed, i);
    var j :| 0 <= j < |trimmed| && trimmed[j] == c;
    TrimCharAt(collapsed, j);
  }

  /** A character of the normalised text is neither Arabic yeh nor kaf, and white space only as a space. */
  lemma NormalizedChar(s: string, i: nat)
    requires i < |RemoveFirstEmoji(Trim(CollapseWhitespace(ReplaceArabicLetters(s))))|
    ensures var c := RemoveFirstEmoji(Trim(CollapseWhitespace(ReplaceArabicLetters(s))))[i];
      c != ArabicYeh && c != ArabicKaf && (IsWhitespace(c) ==> c == ' ')
  {
    var replaced := ReplaceArabicLetters(s);
    var collapsed := CollapseWhitespace(replaced);
    NormalizedCharOrigin(s, i);
    var k :| 0 <= k < |collapsed| && collapsed[k] == RemoveFirstEmoji(Trim(collapsed))[i];
    CollapseChars(replaced);
    CollapseResultSingleSpaced(replaced);
    assert collapsed[k] == ' ' || collapsed[k] in replaced;
  }

  /** Each character of the trimmed text sits in the untrimmed one. */
  lemma TrimCharAt(s: string, j: nat)
    requires j < |Trim(s)|
    ensures exists k :: 0 <= k < |s| && s[k] == Trim(s)[j]
  {
    var l := LeadingWhitespace(s);
    assert Trim(s)[j] == s[l + j];
  }

  /** Collapsing never lengthens the text. */
  lemma {:induction false} CollapseShrinks(s: string)
    ensures |CollapseWhitespace(s)| <= |s|
    decreases |s|
  {
    if s != [] {
      if IsWhitespace(s[0]) {
        CollapseShrinks(TrimStart(s[1..]));
      } else {
        CollapseShrinks(s[1..]);
      }
    }
  }

  /** `normalizeText(str)`: `str || ""` first, so an absent text normalises to the empty one. */
  function NormalizeText(str: Option<string>): (r: string)
    ensures str.None? ==> r == ""
    ensures str.Some? ==> r == NormalizeString(str.value)
  {
    NormalizeString(str.GetOr(""))
  }

  /** Clean text: no Arabic yeh or kaf, no emoji of the class, single spaces only, trimmed. */
  predicate Clean(s: string) {
    && (forall i :: 0 <= i < |s| ==> s[i] != ArabicYeh && s[i] != ArabicKaf && !IsEmoji(s[i]))
    && SingleSpaced(s)
    && IsTrimmed(s)
  }

  /** Normalising clean text changes nothing. */
  lemma NormalizeClean(s: string)
    requires Clean(s)
    ensures NormalizeString(s) == s
  {
    assert ReplaceArabicLetters(s) == s;
    CollapseSingleSpaced(s);
    TrimOfTrimmed(s);
    assert FirstEmojiIndex(s) == |s|;
  }

  /** Normalising a text that is clean apart from one leading emoji deletes just that emoji. */
  lemma NormalizeLeadingEmoji(e: char, rest: string)
    requires IsEmoji(e)
    requires forall i :: 0 <= i < |rest| ==> rest[i] != ArabicYeh && rest[i] != ArabicKaf
    requires SingleSpaced([e] + rest) && IsTrimmed([e] + rest)
    ensures NormalizeString([e] + rest) == rest
  {
    var s := [e] + rest;
    forall i | 0 <= i < |s|
      ensures s[i] != ArabicYeh && s[i] != ArabicKaf
    {
      if i > 0 {
        assert s[i] == rest[i - 1];
      }
    }
    ReplaceIdentity(s);
    CollapseSingleSpaced(s);
    TrimOfTrimmed(s);
    RemoveLeadingEmoji(s);
    assert s[1..] == rest;
  }

  /** Text without Arabic yeh or kaf is left alone by the letter replacement. */
  lemma ReplaceIdentity(s: string)
    requires forall i :: 0 <= i < |s| ==> s[i] != ArabicYeh && s[i] != ArabicKaf
    ensures ReplaceArabicLetters(s) == s
  {
  }

  /** A leading emoji is the one removed. */
  lemma RemoveLeadingEmoji(s: string)
    requires s != [] && IsEmoji(s[0])
    ensures RemoveFirstEmoji(s) == s[1..]
  {
    assert FirstEmojiIndex(s) == 0;
  }

  /** A space in front of single-spaced text that starts with no white space keeps it single-spaced. */
  lemma SpaceThenSingleSpaced(t: string)
    requires SingleSpaced(t) && (t == [] || !IsWhitespace(t[0]))
    ensures SingleSpaced([' '] + t)
  {
    var s := [' '] + t;
    forall i | 0 <= i < |s| && IsWhitespace(s[i])
      ensures s[i] == ' ' && (i + 1 < |s| ==> !IsWhitespace(s[i + 1]))
    {
      if i > 0 {
        assert s[i] == t[i - 1];
        if i + 1 < |s| {
          assert s[i + 1] == t[i];
        }
      }
    }
  }

  /** Trimming a space followed by trimmed text gives that text. */
  lemma TrimLeadingSpace(t: string)
    requires IsTrimmed(t) && t != []
    ensures Trim([' '] + t) == t
  {
    var s := [' '] + t;
    assert s[1..] == t;
    assert TrimStart(t) == t;
    assert TrimStart(s) == t;
    assert LeadingWhitespace(s) == 1;
  }

  /** Normalising a space followed by clean text drops the space. */
  lemma NormalizeLeadingSpace(t: string)
    requires Clean(t) && t != []
    ensures NormalizeString([' '] + t) == t
  {
    var s := [' '] + t;
    assert ReplaceArabicLetters(s) == s;
    SpaceThenSingleSpaced(t);
    CollapseSingleSpaced(s);
    TrimLeadingSpace(t);
    assert FirstEmojiIndex(t) == |t|;
  }

  /** Normalising is not idempotent: deleting a leading emoji exposes the space after it, which a
      second pass trims away. */
  lemma NormalizeNotIdempotent()
    ensures NormalizeString("\U{1F600} a") == " a"
    ensures NormalizeString(" a") == "a"
  {
    EmojiThenSpace();
    SpaceThenLetter();
  }

  lemma EmojiThenSpace()
    ensures NormalizeString("\U{1F600} a") == " a"
  {
    var s := "\U{1F600} a";
    assert s == ['\U{1F600}'] + " a";
    assert SingleSpaced(s) by {
      assert !IsWhitespace(s[0]) && s[1] == ' ' && !IsWhitespace(s[2]);
    }
    assert IsTrimmed(s);
    NormalizeLeadingEmoji('\U{1F600}', " a");
  }

  lemma SpaceThenLetter()
    ensures NormalizeString(" a") == "a"
  {
    assert " a" == [' '] + "a";
    assert Clean("a");
    NormalizeLeadingSpace("a");
  }

  /** A second emoji survives normalisation. */
  lemma SecondEmojiSurvives()
    ensures NormalizeString("\U{1F600}\U{1F601}") == "\U{1F601}"
  {
    assert "\U{1F600}\U{1F601}" == ['\U{1F600}'] + "\U{1F601}";
    NormalizeLeadingEmoji('\U{1F600}', "\U{1F601}");
  }

  /** One message of a raw conversation; `None` content is an absent or null field. */
  datatype RawMessage = RawMessage(role: string, content: Option<string>)

  /** A raw conversation record; `None` is an absent or null field. */
  datatype RawConversation = RawConversation(
    conversationId: Option<string>,
    userClientId: Option<string>,
    title: Option<string>,
    sourceSummary: Option<string>,
    messages: Option<seq<RawMessage>>)

  const Greetings: seq<string> := ["سلام", "سلام!", "سلام.", "سلام و وقت بخیر", "سلام وقت بخیر"]
  const MinLength: nat := 3
  const MaxLength: nat := 4000

  /** The filter's test: content present and not empty, normalised length (in UTF-16 units) within
      bounds, and not a bare greeting. */
  predicate ValidMessage(m: RawMessage) {
    && m.content.Some? && m.content.value != ""
    && MinLength <= Utf16Length(NormalizeString(m.content.value)) <= MaxLength
    && NormalizeString(m.content.value) !in Greetings
  }

  /** `removeInvalidMessages`: the valid messages in their original order, every one of them. */
  function RemoveInvalidMessages(messages: seq<RawMessage>): (r: seq<RawMessage>)
    ensures IsSubsequence(r, messages)
    ensures forall i :: 0 <= i < |r| ==> ValidMessage(r[i])
    ensures forall m :: m in messages && ValidMessage(m) ==> m in r
    ensures forall m :: m in r ==> m in messages
    ensures forall m {:trigger multiset(r)[m]} :: multiset(r)[m] == if ValidMessage(m) then multiset(messages)[m] else 0
  {
    var r := Filter(messages, ValidMessage);
    forall m | m in messages && ValidMessage(m)
      ensures m in r
    {
      assert multiset(r)[m] == multiset(messages)[m];
    }
    forall m | m in r
      ensures m in messages
    {
      FilterMember(messages, ValidMessage, m);
    }
    r
  }

  /** A list of valid messages passes the filter whole, repetitions included. */
  lemma AllValidKept(messages: seq<RawMessage>)
    requires forall i :: 0 <= i < |messages| ==> ValidMessage(messages[i])
    ensures RemoveInvalidMessages(messages) == messages
  {
    FilterKeepsAll(messages, ValidMessage);
  }

  /** A repeated valid message is kept every time it occurs: the filter does not deduplicate. */
  lemma RepeatedMessagesKept(m: RawMessage)
    requires ValidMessage(m)
    ensures RemoveInvalidMessages([m, m]) == [m, m]
  {
    AllValidKept([m, m]);
  }

  /** The role rename: `USER` and `ASSISTANT` to lower case, any other role unchanged. */
  function MapRole(role: string): (r: string)
    ensures role == "USER" ==> r == "user"
    ensures role == "ASSISTANT" ==> r == "assistant"
    ensures role != "USER" && role != "ASSISTANT" ==> r == role
  {
    if role == "USER" then "user" else if role == "ASSISTANT" then "assistant" else role
  }

  function CleanMessage(m: RawMessage): RawMessage {
    RawMessage(MapRole(m.role), Some(NormalizeText(m.content)))
  }

  /** `filterConversation`: nothing when fewer than two messages survive the filter; otherwise the
      metadata copied and the surviving messages renamed and normalised, in order. */
  function FilterConversation(conv: RawConversation): (r: Option<RawConversation>)
    ensures var kept := RemoveInvalidMessages(conv.messages.GetOr([]));
      && (r.None? <==> |kept| < 2)
      && (r.Some? ==>
            && r.value.conversationId == conv.conversationId
            && r.value.userClientId == conv.userClientId
            && r.value.title == conv.title
            && r.value.sourceSummary == conv.sourceSummary
            && r.value.messages.Some?
            && |r.value.messages.value| == |kept|
            && forall i :: 0 <= i < |kept| ==>
                 r.value.messages.value[i] == RawMessage(MapRole(kept[i].role), Some(NormalizeString(kept[i].content.value))))
  {
    var kept := RemoveInvalidMessages(conv.messages.GetOr([]));
    var cleaned := seq(|kept|, i requires 0 <= i < |kept| => CleanMessage(kept[i]));
    if |cleaned| < 2 then None
    else Some(RawConversation(conv.conversationId, conv.userClientId, conv.title, conv.sourceSummary, Some(cleaned)))
  }

  /** Every message of a kept conversation has present content of three to four thousand UTF-16
      units that is not a greeting, with no Arabic yeh or kaf. */
  lemma FilteredContentsValid(conv: RawConversation)
    requires FilterConversation(conv).Some?
    ensures var out := FilterConversation(conv).value.messages.value;
      forall i :: 0 <= i < |out| ==>
        && out[i].content.Some?
        && MinLength <= Utf16Length(out[i].content.value) <= MaxLength
        && out[i].content.value !in Greetings
        && (forall k :: 0 <= k < |out[i].content.value| ==>
              out[i].content.value[k] != ArabicYeh && out[i].content.value[k] != ArabicKaf)
  {
  }

  /** `isJSONL`. */
  predicate IsJsonl(path: string) {
    EndsWith(path, ".jsonl")
  }

  /** Any name ending in `.jsonl` is JSONL; one ending in `.json` is not. */
  lemma JsonlExtension(base: string)
    ensures IsJsonl(base + ".jsonl")
    ensures !IsJsonl(base + ".json")
  {
    assert (base + ".jsonl")[|base + ".jsonl"| - 6..] == ".jsonl";
    assert (base + ".json")[|base + ".json"| - 1] == 'n';
  }

  /** One item of an evaluation file. */
  datatype EvalItem = EvalItem(category: string, question: string, answer: string)

  const EvalClientId: string := "evaluation-bot"

  /** The conversation built from the evaluation item at position `index`. */
  function EvalConversation(index: nat, item: EvalItem): (r: RawConversation)
    ensures r.conversationId == Some("eval-" + NatToString(index))
    ensures r.userClientId == Some(EvalClientId) && r.title.None? && r.sourceSummary.None?
    ensures r.messages == Some([RawMessage("user", Some(item.question)), RawMessage("assistant", Some(item.answer))])
  {
    RawConversation(Some("eval-" + NatToString(index)), Some(EvalClientId), None, None,
                    Some([RawMessage("user", Some(item.question)), RawMessage("assistant", Some(item.answer))]))
  }

  /** The evaluation-format branch of loading: one conversation per item, in order. */
  function EvalConversations(items: seq<EvalItem>): (r: seq<RawConversation>)
    ensures |r| == |items|
    ensures forall i :: 0 <= i < |r| ==> r[i] == EvalConversation(i, items[i])
  {
    seq(|items|, i requires 0 <= i < |items| => EvalConversation(i, items[i]))
  }

  /** The evaluation conversations carry pairwise distinct ids. */
  lemma EvalIdsDistinct(items: seq<EvalItem>, i: nat, j: nat)
    requires i < j < |items|
    ensures EvalConversations(items)[i].conversationId != EvalConversations(items)[j].conversationId
  {
    var a := NatToString(i);
    var b := NatToString(j);
    if "eval-" + a == "eval-" + b {
      assert a == ("eval-" + a)[5..] == ("eval-" + b)[5..] == b;
      NatToStringInjective(i, j);
    }
  }

  /** An evaluation conversation survives the filter exactly when both its question and its answer
      pass the message test; the roles are already lower case. */
  lemma EvalSurvivesIff(index: nat, item: EvalItem)
    ensures var q := RawMessage("user", Some(item.question));
      var a := RawMessage("assistant", Some(item.answer));
      FilterConversation(EvalConversation(index, item)).Some? <==> ValidMessage(q) && ValidMessage(a)
  {
    var q := RawMessage("user", Some(item.question));
    var a := RawMessage("assistant", Some(item.answer));
    var msgs := [q, a];
    var kept := RemoveInvalidMessages(msgs);
    assert Filter(msgs, ValidMessage) == Filter([a], ValidMessage) || Filter(msgs, ValidMessage)[0] == q;
    assert Filter([a], ValidMessage) == (if ValidMessage(a) then [a] else []) by {
      assert [a][1..] == [];
    }
    assert msgs[1..] == [a];
  }

  /** The main loop: the surviving conversations, in input order. */
  function CleanAll(conversations: seq<RawConversation>): (r: seq<RawConversation>)
    ensures |r| <= |conversations|
    ensures forall i :: 0 <= i < |r| ==>
              exists j :: 0 <= j < |conversations| && FilterConversation(conversations[j]) == Some(r[i])
    ensures forall j :: 0 <= j < |conversations| && FilterConversation(conversations[j]).Some? ==>
              FilterConversation(conversations[j]).value in r
  {
    FilterMapFaithful(conversations, FilterConversation);
    FilterMap(conversations, FilterConversation)
  }

  /** A single conversation yields its filtered form or nothing. */
  lemma CleanOne(c: RawConversation)
    ensures CleanAll([c]) == if FilterConversation(c).Some? then [FilterConversation(c).value] else []
  {
    FilterMapOne(c, FilterConversation);
  }

  /** Cleaning two files' worth of conversations one after the other is cleaning them together:
      survivors come out in input order, one per surviving input. */
  lemma CleanAppend(a: seq<RawConversation>, b: seq<RawConversation>)
    ensures CleanAll(a + b) == CleanAll(a) + CleanAll(b)
  {
    FilterMapAppend(a, b, FilterConversation);
  }
}
