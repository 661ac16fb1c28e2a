/**
 * `handle_message`: every channel message is answered from the FAQ table,
 * handed off to a team member, or left alone.
 */
module MessageHandler {
  import opened Wrappers
  import opened Text
  import opened Faq
  import opened Actions

  /** The fields of an incoming message the handler reads; `botId` is present only on bot messages. */
  datatype Message = Message(text: string, ts: string, botId: Option<string>)

  /** The notice posted when no keyword matches; it always mentions the hand-off member. */
  function HandoffText(memberId: string): (s: string)
    ensures Contains(Mention(memberId), s)
  {
    var lead := "I'm not sure how to answer that. Let me loop in the team for you. ";
    var tail := " will get back to you shortly.";
    ContainsConcat(lead, Mention(memberId), tail);
    lead + Mention(memberId) + tail
  }

  /**
   * The decision of `handle_message` over the FAQ table `table` (in the bot,
   * `Responses(link)`). Lower-case the text and answer with the first keyword
   * that occurs in it; failing that, hand off to a human unless a bot sent
   * the message.
   */
  function HandleMessage(table: Table, handoffMemberId: string, m: Message): (r: Action)
    ensures r.Reply? || r.Handoff? || r.NoReply?
    ensures r.Reply? <==> AnyMatch(table, ToLower(m.text))
    ensures r.Reply? ==> r.threadTs == m.ts
    ensures r.Reply? ==> exists i :: IsFirstMatch(table, ToLower(m.text), i) && r.text == table[i].1
    ensures r.Handoff? <==> !AnyMatch(table, ToLower(m.text)) && m.botId.None?
    ensures r.Handoff? ==> r.threadTs == m.ts && Contains(Mention(handoffMemberId), r.text)
  {
    match FirstMatch(table, ToLower(m.text))
    case Some(i) => Reply(table[i].1, m.ts)
    case None =>
      if m.botId.None? then Handoff(HandoffText(handoffMemberId), m.ts) else NoReply
  }

  /** The handler as the source writes it: a loop over the table that stops at the first hit. */
  method RespondToMessage(table: Table, handoffMemberId: string, m: Message) returns (r: Action)
    ensures r == HandleMessage(table, handoffMemberId, m)
  {
    var userMessage := ToLower(m.text);
    var k := 0;
    while k < |table|
      invariant 0 <= k <= |table|
      invariant forall j :: 0 <= j < k ==> !Contains(table[j].0, userMessage)
    {
      if Contains(table[k].0, userMessage) {
        FirstMatchUnique(table, userMessage, k);
        return Reply(table[k].1, m.ts);
      }
      k := k + 1;
    }
    if m.botId.None? {
      return Handoff(HandoffText(handoffMemberId), m.ts);
    }
    return NoReply;
  }

  /** Messages that differ only in the case of their letters get the same action. */
  lemma CaseInsensitive(table: Table, handoffMemberId: string, m: Message, m': Message)
    requires SameIgnoringCase(m.text, m'.text)
    requires m.ts == m'.ts && m.botId == m'.botId
    ensures HandleMessage(table, handoffMemberId, m) == HandleMessage(table, handoffMemberId, m')
  {
    LowerEqualIffSameIgnoringCase(m.text, m'.text);
  }

  /**
   * A keyword of a lower-case table, written in any mix of cases anywhere in
   * the message, is answered, by that keyword or by one declared before it.
   */
  lemma KeywordInAnyCaseIsAnswered(table: Table, handoffMemberId: string, m: Message, word: string, i: nat)
    requires i < |table| && IsLower(table[i].0) && SameIgnoringCase(word, table[i].0)
    requires Contains(word, m.text)
    ensures HandleMessage(table, handoffMemberId, m).Reply?
    ensures FirstMatch(table, ToLower(m.text)).Some? && FirstMatch(table, ToLower(m.text)).value <= i
  {
    LowerOfLower(table[i].0);
    LowerEqualIffSameIgnoringCase(word, table[i].0);
    ContainsLowered(word, m.text);
    assert Contains(table[i].0, ToLower(m.text));
  }

  /** On the bot's own table every keyword is lower-case, so any casing of a keyword is answered. */
  lemma BotAnswersKeywordInAnyCase(calendlyLink: string, handoffMemberId: string, m: Message, word: string, i: nat)
    requires i < 15 && SameIgnoringCase(word, Keyword(i))
    requires Contains(word, m.text)
    ensures HandleMessage(Responses(calendlyLink), handoffMemberId, m).Reply?
    ensures FirstMatch(Responses(calendlyLink), ToLower(m.text)).Some?
    ensures FirstMatch(Responses(calendlyLink), ToLower(m.text)).value <= i
  {
    KeywordsLowerCase();
    KeywordInAnyCaseIsAnswered(Responses(calendlyLink), handoffMemberId, m, word, i);
  }

  /** A keyword match answers the message whether or not a bot sent it. */
  lemma MatchIgnoresBotId(table: Table, handoffMemberId: string, m: Message, botId: Option<string>)
    requires AnyMatch(table, ToLower(m.text))
    ensures HandleMessage(table, handoffMemberId, m) == HandleMessage(table, handoffMemberId, m.(botId := botId))
    ensures HandleMessage(table, handoffMemberId, m.(botId := botId)).Reply?
  {
  }

  /** Once the first match is known, the action is its answer, threaded on the message. */
  lemma AnswerOfFirstMatch(table: Table, handoffMemberId: string, m: Message, i: nat)
    requires FirstMatch(table, ToLower(m.text)) == Some(i)
    ensures i < |table|
    ensures HandleMessage(table, handoffMemberId, m) == Reply(table[i].1, m.ts)
  {
  }

  /** With no match, the action depends on the bot id alone. */
  lemma ActionWithoutMatch(table: Table, handoffMemberId: string, m: Message)
    requires FirstMatch(table, ToLower(m.text)) == None
    ensures HandleMessage(table, handoffMemberId, m)
         == if m.botId.None? then Handoff(HandoffText(handoffMemberId), m.ts) else NoReply
  {
  }

  /** The lowered forms of the example messages below. */
  lemma ScheduleACallLowered()
    ensures ToLower("Schedule a CALL") == "schedule a call"
  {
  }

  lemma IdeaForAMeetingLowered()
    ensures ToLower("An idea for a Meeting") == "an idea for a meeting"
  {
  }

  lemma HelloThereLowered()
    ensures ToLower("Hello there") == "hello there"
  {
  }

  /**
   * "Schedule a CALL" holds both "call" and "schedule" once lowered; "call"
   * is declared first, so its answer is given, whoever sent the message.
   */
  lemma ScheduleACallGetsCallAnswer(calendlyLink: string, handoffMemberId: string, m: Message)
    requires m.text == "Schedule a CALL"
    ensures HandleMessage(Responses(calendlyLink), handoffMemberId, m) == Reply(Answer(Call, calendlyLink), m.ts)
  {
    ScheduleACallLowered();
    ScheduleACallMatchesCall(calendlyLink);
    AnswerOfFirstMatch(Responses(calendlyLink), handoffMemberId, m, Call);
  }

  /** "An idea for a Meeting" gets the booking answer, not the campaign-idea answer. */
  lemma IdeaForAMeetingGetsMeetingAnswer(calendlyLink: string, handoffMemberId: string, m: Message)
    requires m.text == "An idea for a Meeting"
    ensures HandleMessage(Responses(calendlyLink), handoffMemberId, m) == Reply(Answer(Meeting, calendlyLink), m.ts)
  {
    IdeaForAMeetingLowered();
    IdeaForAMeetingMatchesMeeting(calendlyLink);
    AnswerOfFirstMatch(Responses(calendlyLink), handoffMemberId, m, Meeting);
  }

  /** A greeting is handed off when a person wrote it and ignored when a bot did. */
  lemma GreetingHandoffOrSilence(calendlyLink: string, handoffMemberId: string, m: Message)
    requires m.text == "Hello there"
    ensures HandleMessage(Responses(calendlyLink), handoffMemberId, m)
         == if m.botId.None? then Handoff(HandoffText(handoffMemberId), m.ts) else NoReply
  {
    HelloThereLowered();
    HelloThereMatchesNothing(calendlyLink);
    ActionWithoutMatch(Responses(calendlyLink), handoffMemberId, m);
  }
}
