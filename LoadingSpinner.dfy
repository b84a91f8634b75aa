/** The emoji the loading spinner shows beside its message: the emoji of the
    first keyword, in EMOJI_MAP's order, that the message contains. */
module LoadingSpinner {
  import opened Common
  import opened JsText

  /** EMOJI_MAP as its keys in insertion order, each with its emoji. */
  const EmojiMap: seq<(string, string)> := [
    ("시장", "\U{1F4CA}"),
    ("역량", "\U{2728}"),
    ("협상", "\U{1F91D}"),
    ("리포트", "\U{1F4DD}")
  ]

  /** The emoji shown when no keyword occurs. */
  const DefaultEmoji: string := "\U{1F914}"

  /** The message shown while the application has nothing more specific. */
  const DefaultMessage: string := "AI가 연봉 정보를 분석하고 있습니다..."

  /** The messages the application cycles through while the analysis runs. */
  const LoadingMessages: seq<string> := [
    "시장 데이터를 분석 중입니다...",
    "역량 프리미엄을 산출하고 있습니다...",
    "협상 전략을 수립 중입니다...",
    "최종 리포트를 생성하고 있습니다..."
  ]

  /** Object.keys(...).find: the index of the first entry from `from` on whose
      key the message contains. */
  function FirstKeyFrom(message: string, from: nat): (r: Option<nat>)
    requires from <= |EmojiMap|
    ensures r.Some? ==> from <= r.value < |EmojiMap| && Contains(message, EmojiMap[r.value].0)
    ensures r.Some? ==> forall j :: from <= j < r.value ==> !Contains(message, EmojiMap[j].0)
    ensures r.None? <==> forall j :: from <= j < |EmojiMap| ==> !Contains(message, EmojiMap[j].0)
    decreases |EmojiMap| - from
  {
    if from == |EmojiMap| then None
    else if Contains(message, EmojiMap[from].0) then Some(from)
    else FirstKeyFrom(message, from + 1)
  }

  /** getEmojiForMessage. */
  function EmojiFor(message: string): (emoji: string)
    ensures emoji == DefaultEmoji
            || exists k :: 0 <= k < |EmojiMap| && Contains(message, EmojiMap[k].0) && emoji == EmojiMap[k].1
    ensures Contains(message, EmojiMap[0].0) ==> emoji == EmojiMap[0].1
  {
    var k := FirstKeyFrom(message, 0);
    if k.Some? then EmojiMap[k.value].1 else DefaultEmoji
  }

  /** The emoji of entry k is shown exactly when the message contains k's key
      and none of the keys before it. */
  lemma EmojiIsFirstMatch(message: string, k: nat)
    requires k < |EmojiMap|
    ensures EmojiFor(message) == EmojiMap[k].1 <==>
              Contains(message, EmojiMap[k].0) && forall j :: 0 <= j < k ==> !Contains(message, EmojiMap[j].0)
  {
    var r := FirstKeyFrom(message, 0);
    if EmojiFor(message) == EmojiMap[k].1 {
      assert r.Some?;
    }
  }

  /** The default emoji is shown exactly when the message contains no key. */
  lemma DefaultExactlyWithoutKeys(message: string)
    ensures EmojiFor(message) == DefaultEmoji <==>
              forall j :: 0 <= j < |EmojiMap| ==> !Contains(message, EmojiMap[j].0)
  {
    var r := FirstKeyFrom(message, 0);
    if r.Some? {
      assert EmojiMap[r.value].1 != DefaultEmoji;
    }
  }

  /** A message about the market always gets the chart, whatever else it
      mentions. */
  lemma MarketComesFirst(message: string)
    requires Contains(message, "시장")
    ensures EmojiFor(message) == "\U{1F4CA}"
  {
    EmojiIsFirstMatch(message, 0);
  }

  /** The empty message gets the default emoji. */
  lemma EmptyMessageDefault()
    ensures EmojiFor("") == DefaultEmoji
  {
    forall j | 0 <= j < |EmojiMap|
      ensures !Contains("", EmojiMap[j].0)
    {
      NotContainsWithoutFirstChar("", EmojiMap[j].0);
    }
    DefaultExactlyWithoutKeys("");
  }

  /** A message in which the first characters of the first n keys do not
      occur contains none of those keys. */
  lemma KeysAbsent(message: string, n: nat)
    requires n <= |EmojiMap|
    requires forall i, j :: 0 <= i < |message| && 0 <= j < n ==> message[i] != EmojiMap[j].0[0]
    ensures forall j :: 0 <= j < n ==> !Contains(message, EmojiMap[j].0)
  {
    forall j | 0 <= j < n
      ensures !Contains(message, EmojiMap[j].0)
    {
      NotContainsWithoutFirstChar(message, EmojiMap[j].0);
    }
  }

  /** Loading message i shows the emoji of entry i: it contains key i, and no
      first character of an earlier key. */
  lemma LoadingMessageEmoji(i: nat)
    requires i < |LoadingMessages|
    requires Contains(LoadingMessages[i], EmojiMap[i].0)
    requires forall c, j :: 0 <= c < |LoadingMessages[i]| && 0 <= j < i ==>
               LoadingMessages[i][c] != EmojiMap[j].0[0]
    ensures EmojiFor(LoadingMessages[i]) == EmojiMap[i].1
  {
    KeysAbsent(LoadingMessages[i], i);
    EmojiIsFirstMatch(LoadingMessages[i], i);
  }

  lemma MarketMessage()
    ensures EmojiFor(LoadingMessages[0]) == EmojiMap[0].1
  {
    assert StartsWith(LoadingMessages[0], "시장");
    LoadingMessageEmoji(0);
  }

  lemma CompetencyMessage()
    ensures EmojiFor(LoadingMessages[1]) == EmojiMap[1].1
  {
    assert StartsWith(LoadingMessages[1], "역량");
    LoadingMessageEmoji(1);
  }

  lemma NegotiationMessage()
    ensures EmojiFor(LoadingMessages[2]) == EmojiMap[2].1
  {
    assert StartsWith(LoadingMessages[2], "협상");
    LoadingMessageEmoji(2);
  }

  /** The report message names its key after "최종 ". */
  lemma ReportMessageHasKey()
    ensures Contains(LoadingMessages[3], EmojiMap[3].0)
  {
    var m := LoadingMessages[3];
    assert m == "최종 " + m[3..];
    assert StartsWith(m[3..], "리포트");
    ContainsExtendLeft("최종 ", m[3..], "리포트");
  }

  /** The report message has no earlier key's first character. */
  lemma ReportMessageLacksEarlierKeys()
    ensures forall c, j :: 0 <= c < |LoadingMessages[3]| && 0 <= j < 3 ==>
              LoadingMessages[3][c] != EmojiMap[j].0[0]
  {
  }

  lemma ReportMessage()
    ensures EmojiFor(LoadingMessages[3]) == EmojiMap[3].1
  {
    ReportMessageHasKey();
    ReportMessageLacksEarlierKeys();
    LoadingMessageEmoji(3);
  }

  /** The default message contains no key. */
  lemma DefaultMessageEmoji()
    ensures EmojiFor(DefaultMessage) == DefaultEmoji
  {
    KeysAbsent(DefaultMessage, 4);
    DefaultExactlyWithoutKeys(DefaultMessage);
  }

  /** The four loading messages show four different emoji, in EMOJI_MAP's
      order, and the default message shows the default emoji. */
  lemma LoadingEmojiDistinct()
    ensures EmojiFor(LoadingMessages[0]) == "\U{1F4CA}"
    ensures EmojiFor(LoadingMessages[1]) == "\U{2728}"
    ensures EmojiFor(LoadingMessages[2]) == "\U{1F91D}"
    ensures EmojiFor(LoadingMessages[3]) == "\U{1F4DD}"
    ensures EmojiFor(DefaultMessage) == DefaultEmoji
  {
    MarketMessage();
    CompetencyMessage();
    NegotiationMessage();
    ReportMessage();
    DefaultMessageEmoji();
  }
}
