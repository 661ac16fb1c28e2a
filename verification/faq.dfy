/**
 * The FAQ table of main.py and the first-match search over it.
 *
 * The source keeps the table in a Python dict; Python dicts iterate in
 * insertion order, and the sequence of (keyword, answer) pairs here makes
 * that order explicit.
 */
module Faq {
  import opened Wrappers
  import opened Text

  type Table = seq<(string, string)>

  /** Positions in the table of the keywords the lemmas below talk about. */
  const Meeting := 10
  const Call := 11
  const Schedule := 12
  const Connect := 13

  /** The keyword of table entry `i`; all keywords are lower-case. */
  function Keyword(i: nat): string
    requires i < 15
  {
    match i
    case 0 => "login"
    case 1 => "dashboard"
    case 2 => "master inbox"
    case 3 => "campaign launch"
    case 4 => "reporting"
    case 5 => "leads"
    case 6 => "pause campaign"
    case 7 => "target audience"
    case 8 => "copywriting"
    case 9 => "billing"
    case 10 => "meeting"
    case 11 => "call"
    case 12 => "schedule"
    case 13 => "connect"
    case _ => "idea"
  }

  /** The fixed text in front of the booking link in the four scheduling answers. */
  const MeetingLead := "Of course! You can book a time with us using this link: "
  const CallLead := "Happy to connect! Please book a time that works for you here: "
  const ScheduleLead := "Let's find a time. You can view our availability and book a slot here: "
  const ConnectLead := "Sounds good. Please grab a time on our calendar: "

  /** The answer of table entry `i`; the scheduling answers end with the configured booking link. */
  function Answer(i: nat, calendlyLink: string): string
    requires i < 15
  {
    match i
    case 0 => "You can log in to the CleverViral dashboard at gtm.cleverviral.co. You should have received an invite via email to set up your account."
    case 1 => "The Campaign Dashboard provides a real-time overview of your campaign performance, including sends, opens, clicks, and replies."
    case 2 => "The Master Inbox is where you can view and reply to all positive leads from your campaigns. You can access it via the main dashboard at gtm.cleverviral.co."
    case 3 => "New campaigns are typically launched within 3-5 business days after the strategy is finalized. We will notify you here in the '#[client]_cleverviral' channel once it's live."
    case 4 => "You will receive weekly performance TL;DRs in this channel every Friday and a detailed monthly report via email at the beginning of each month."
    case 5 => "Positive replies from potential leads are funneled into the Master Inbox. You'll also get a real-time notification in the '#[client]_live_responses' channel for each positive reply."
    case 6 => "To pause a campaign, please let us know which campaign you'd like to pause, and we will deactivate it. Please allow up to 24 hours for this change to take effect."
    case 7 => "We define the target audience based on the Ideal Customer Profile (ICP) we established during onboarding. If you want to suggest a new audience, feel free to use the `/new-campaign` command."
    case 8 => "All email copy is written by our team and goes through a rigorous internal review process. We typically share the copy direction with you before launching a new angle."
    case 9 => "For any questions regarding billing or your subscription, please contact your account manager directly or email billing@cleverviral.co."
    case 10 => MeetingLead + calendlyLink
    case 11 => CallLead + calendlyLink
    case 12 => ScheduleLead + calendlyLink
    case 13 => ConnectLead + calendlyLink
    case _ => "That's great! To ensure we capture all the details for a new campaign idea, please use the `/new-campaign` command. It will give you a form to fill out."
  }

  /** The bot's FAQ table, in declaration order. */
  function Responses(calendlyLink: string): (t: Table)
    ensures |t| == 15
    ensures forall i :: 0 <= i < 15 ==> t[i] == (Keyword(i), Answer(i, calendlyLink))
  {
    seq(15, i requires 0 <= i < 15 => (Keyword(i), Answer(i, calendlyLink)))
  }

  /** Keyword `i` is the earliest keyword of `t` that occurs in `text`. */
  predicate IsFirstMatch(t: Table, text: string, i: int) {
    && 0 <= i < |t|
    && Contains(t[i].0, text)
    && forall j :: 0 <= j < i ==> !Contains(t[j].0, text)
  }

  /** Some keyword of `t` occurs in `text`. */
  predicate AnyMatch(t: Table, text: string) {
    exists i :: 0 <= i < |t| && Contains(t[i].0, text)
  }

  function FirstMatchFrom(t: Table, text: string, k: nat): (r: Option<nat>)
    requires k <= |t|
    ensures r.Some? ==> k <= r.value < |t| && Contains(t[r.value].0, text)
    ensures r.Some? ==> forall j :: k <= j < r.value ==> !Contains(t[j].0, text)
    ensures r.None? ==> forall j :: k <= j < |t| ==> !Contains(t[j].0, text)
    decreases |t| - k
  {
    if k == |t| then None
    else if Contains(t[k].0, text) then Some(k)
    else FirstMatchFrom(t, text, k + 1)
  }

  /** The table walk of `handle_message`: the index of the first keyword found in `text`, if any. */
  function FirstMatch(t: Table, text: string): (r: Option<nat>)
    ensures r.Some? <==> AnyMatch(t, text)
    ensures r.Some? ==> IsFirstMatch(t, text, r.value)
  {
    FirstMatchFrom(t, text, 0)
  }

  /** The first match is unique: any index that is the earliest match is the one returned. */
  lemma FirstMatchUnique(t: Table, text: string, i: int)
    requires IsFirstMatch(t, text, i)
    ensures FirstMatch(t, text) == Some(i)
  {
  }

  /** A later keyword never wins over an earlier keyword that also occurs. */
  lemma EarlierKeywordWins(t: Table, text: string, i: int, j: int)
    requires 0 <= i < j < |t|
    requires Contains(t[i].0, text) && Contains(t[j].0, text)
    ensures FirstMatch(t, text) != Some(j)
    ensures FirstMatch(t, text).Some? && FirstMatch(t, text).value <= i
  {
  }

  /** Every keyword of the table is non-empty and lower-case, so lowering the text is all the case-folding needed. */
  lemma KeywordsLowerCase()
    ensures forall i :: 0 <= i < 15 ==> |Keyword(i)| > 0 && IsLower(Keyword(i))
  {
    forall i | 0 <= i < 15
      ensures |Keyword(i)| > 0 && IsLower(Keyword(i))
    {
      match i
      case 0 => case 1 => case 2 => case 3 => case 4 =>
      case 5 => case 6 => case 7 => case 8 => case 9 =>
      case 10 => case 11 => case 12 => case 13 => case _ =>
    }
  }

  /** The four scheduling answers hand out the configured booking link. */
  lemma SchedulingAnswersCarryLink(calendlyLink: string)
    ensures forall i :: Meeting <= i <= Connect ==> Contains(calendlyLink, Answer(i, calendlyLink))
  {
    forall i | Meeting <= i <= Connect
      ensures Contains(calendlyLink, Answer(i, calendlyLink))
    {
      var lead := if i == Meeting then MeetingLead else if i == Call then CallLead
                  else if i == Schedule then ScheduleLead else ConnectLead;
      assert Answer(i, calendlyLink) == lead + calendlyLink + "";
      ContainsConcat(lead, calendlyLink, "");
    }
  }

  /*
   * The lemmas below rule keywords out of a concrete text by naming a
   * character (or a pair of adjacent characters) of the keyword that the
   * text lacks. Each covers part of the table, to keep every proof small.
   */

  lemma ScheduleACallMissesEarlyKeywords(text: string)
    requires text == "schedule a call"
    ensures forall j :: 0 <= j < 5 ==> !Contains(Keyword(j), text)
  {
    forall j | 0 <= j < 5
      ensures !Contains(Keyword(j), text)
    {
      match j
      case 0 => AbsentCharExcludes(Keyword(0), text, 'g');
      case 1 => AbsentCharExcludes(Keyword(1), text, 'b');
      case 2 => AbsentCharExcludes(Keyword(2), text, 'm');
      case 3 => AbsentCharExcludes(Keyword(3), text, 'm');
      case _ => AbsentCharExcludes(Keyword(4), text, 'r');
    }
  }

  lemma ScheduleACallMissesLaterKeywords(text: string)
    requires text == "schedule a call"
    ensures forall j :: 5 <= j < Call ==> !Contains(Keyword(j), text)
  {
    forall j | 5 <= j < Call
      ensures !Contains(Keyword(j), text)
    {
      match j
      case 5 => AbsentPairExcludes(Keyword(5), text, 1);
      case 6 => AbsentCharExcludes(Keyword(6), text, 'p');
      case 7 => AbsentCharExcludes(Keyword(7), text, 't');
      case 8 => AbsentCharExcludes(Keyword(8), text, 'o');
      case 9 => AbsentCharExcludes(Keyword(9), text, 'b');
      case _ => AbsentCharExcludes(Keyword(10), text, 'm');
    }
  }

  /** "schedule a call" holds both "call" and "schedule"; "call" is declared first and wins. */
  lemma ScheduleACallMatchesCall(calendlyLink: string)
    ensures FirstMatch(Responses(calendlyLink), "schedule a call") == Some(Call)
  {
    var text := "schedule a call";
    assert text[11..15] == Keyword(Call);
    assert OccursAt(Keyword(Call), text, 11);
    ScheduleACallMissesEarlyKeywords(text);
    ScheduleACallMissesLaterKeywords(text);
    FirstMatchUnique(Responses(calendlyLink), text, Call);
  }

  lemma IdeaForAMeetingMissesEarlyKeywords(text: string)
    requires text == "an idea for a meeting"
    ensures forall j :: 0 <= j < 5 ==> !Contains(Keyword(j), text)
  {
    forall j | 0 <= j < 5
      ensures !Contains(Keyword(j), text)
    {
      match j
      case 0 => AbsentCharExcludes(Keyword(0), text, 'l');
      case 1 => AbsentCharExcludes(Keyword(1), text, 's');
      case 2 => AbsentCharExcludes(Keyword(2), text, 's');
      case 3 => AbsentCharExcludes(Keyword(3), text, 'c');
      case _ => AbsentCharExcludes(Keyword(4), text, 'p');
    }
  }

  lemma IdeaForAMeetingMissesLaterKeywords(text: string)
    requires text == "an idea for a meeting"
    ensures forall j :: 5 <= j < Meeting ==> !Contains(Keyword(j), text)
  {
    forall j | 5 <= j < Meeting
      ensures !Contains(Keyword(j), text)
    {
      match j
      case 5 => AbsentCharExcludes(Keyword(5), text, 'l');
      case 6 => AbsentCharExcludes(Keyword(6), text, 'p');
      case 7 => AbsentCharExcludes(Keyword(7), text, 'u');
      case 8 => AbsentCharExcludes(Keyword(8), text, 'c');
      case _ => AbsentCharExcludes(Keyword(9), text, 'b');
    }
  }

  /** "meeting" is declared before "idea", so a text holding both matches "meeting". */
  lemma IdeaForAMeetingMatchesMeeting(calendlyLink: string)
    ensures FirstMatch(Responses(calendlyLink), "an idea for a meeting") == Some(Meeting)
  {
    var text := "an idea for a meeting";
    assert text[14..21] == Keyword(Meeting);
    assert OccursAt(Keyword(Meeting), text, 14);
    IdeaForAMeetingMissesEarlyKeywords(text);
    IdeaForAMeetingMissesLaterKeywords(text);
    FirstMatchUnique(Responses(calendlyLink), text, Meeting);
  }

  lemma HelloThereMissesEarlyKeywords(text: string)
    requires text == "hello there"
    ensures forall j :: 0 <= j < 8 ==> !Contains(Keyword(j), text)
  {
    forall j | 0 <= j < 8
      ensures !Contains(Keyword(j), text)
    {
      match j
      case 0 => AbsentCharExcludes(Keyword(0), text, 'g');
      case 1 => AbsentCharExcludes(Keyword(1), text, 'd');
      case 2 => AbsentCharExcludes(Keyword(2), text, 'm');
      case 3 => AbsentCharExcludes(Keyword(3), text, 'c');
      case 4 => AbsentCharExcludes(Keyword(4), text, 'p');
      case 5 => AbsentCharExcludes(Keyword(5), text, 'a');
      case 6 => AbsentCharExcludes(Keyword(6), text, 'p');
      case _ => AbsentCharExcludes(Keyword(7), text, 'a');
    }
  }

  lemma HelloThereMissesLaterKeywords(text: string)
    requires text == "hello there"
    ensures forall j :: 8 <= j < 15 ==> !Contains(Keyword(j), text)
  {
    forall j | 8 <= j < 15
      ensures !Contains(Keyword(j), text)
    {
      match j
      case 8 => AbsentCharExcludes(Keyword(8), text, 'c');
      case 9 => AbsentCharExcludes(Keyword(9), text, 'b');
      case 10 => AbsentCharExcludes(Keyword(10), text, 'm');
      case 11 => AbsentCharExcludes(Keyword(11), text, 'c');
      case 12 => AbsentCharExcludes(Keyword(12), text, 's');
      case 13 => AbsentCharExcludes(Keyword(13), text, 'c');
      case _ => AbsentCharExcludes(Keyword(14), text, 'i');
    }
  }

  /** A greeting holds none of the keywords. */
  lemma HelloThereMatchesNothing(calendlyLink: string)
    ensures FirstMatch(Responses(calendlyLink), "hello there") == None
  {
    var text := "hello there";
    HelloThereMissesEarlyKeywords(text);
    HelloThereMissesLaterKeywords(text);
    assert !AnyMatch(Responses(calendlyLink), text);
  }
}
