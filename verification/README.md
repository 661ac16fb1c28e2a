# CleverViral customer-experience bot: message routing, webhook gate and welcome choice

This project models the decision logic of the bot's `main.py` in Dafny. The bot
does three things that involve a decision:

- It answers channel messages from a fixed FAQ table (`handle_message`). The
  text is lower-cased. The table is walked in declaration order, and the answer
  of the first keyword that occurs in the text is posted in a thread on the
  message. If no keyword occurs and the message is not from a bot, a fixed
  hand-off notice mentioning the configured team member is posted instead.
  Otherwise nothing is posted.
- It republishes call summaries sent by an automation to `/n8n/transcript-summary`
  (`n8n_transcript_summary`). A body that is missing or lacks `summary` or
  `channel` is refused. Otherwise exactly one message goes to the named channel:
  a fixed header followed by the summary, unchanged.
- It greets members who join a channel (`welcome_message`). Channels whose name
  contains `live_responses` get the live-notifications text, and every other
  channel gets the onboarding text. This includes the empty name used when the
  lookup answers "not ok". A lookup that raises sends nothing.

Every handler is a pure function that returns an `Actions.Action` value: a
threaded `Reply`, a threaded `Handoff`, `NoReply`, a webhook `Reject`, or a
`Post` to a channel. The chat platform's and the web framework's calls are
therefore results, not effects. The configured booking link and hand-off member
id are parameters.

Modules, one per concept:

- `Wrappers` (`wrappers.dfy`): `Option`.
- `Text` (`text.dfy`): `str.lower()`, and Python's substring test `in` together
  with its reference definition ("occurs at some index").
- `Faq` (`faq.dfy`): the 15-entry table as an ordered sequence, and the
  first-match search over it.
- `Actions` (`actions.dfy`): the `Action` datatype and the mention syntax `<@id>`.
- `MessageHandler` (`message_handler.dfy`): `handle_message`. The FAQ table
  is a parameter here. The bot's own table is `Faq.Responses(link)`, and the
  lemmas about concrete messages use that table. The handler is written
  twice: as a function, and as a method with the source's early-return loop.
  The method is proved equal to the function.
- `Welcome` (`welcome.dfy`): `welcome_message`.
- `Webhook` (`webhook.dfy`): `n8n_transcript_summary`, as written and as
  intended (see Findings).

## Model

| member | source | states |
|---|---|---|
| `Text.ToLower` | main.py:83 | lowering keeps the length, maps each character on its own (A-Z to a-z, everything else unchanged) and leaves no upper-case letter |
| `Text.LowerEqualIffSameIgnoringCase` | main.py:83 | two texts lower to the same string exactly when they differ only in the case of their letters |
| `Text.LowerIdempotent` | main.py:83 | lowering an already lowered text changes nothing |
| `Text.Contains` | main.py:87 | the substring test holds exactly when the keyword occurs at some index of the text (Python `in`, the empty string included) |
| `Text.ContainsLowered` | main.py:83-87 | an occurrence survives lower-casing both sides, so a keyword typed in capitals is found in the lowered text |
| `Text.ContainsConcat` | main.py:95-97 | a string embedded in a longer one is found in it (used to show that notices mention their member) |
| `Faq.Responses` | main.py:30-46 | the table has exactly the 15 entries, in declaration order, each keyword paired with its own answer |
| `Faq.KeywordsLowerCase` | main.py:30-46 | every keyword of the table is non-empty and has no upper-case letter, so lowering the message is the only case folding needed |
| `Faq.SchedulingAnswersCarryLink` | main.py:41-44 | the "meeting", "call", "schedule" and "connect" answers contain the configured booking link |
| `Faq.FirstMatchFrom` | main.py:86-89 | the table walk from position k returns the first position at or after k whose keyword occurs, or none when no later keyword occurs |
| `Faq.FirstMatch` | main.py:86-89 | a match is returned exactly when some keyword occurs in the text, and it is the earliest such keyword in declaration order |
| `Faq.FirstMatchUnique` | main.py:86-89 | any position that is the earliest match is exactly the one the walk returns |
| `Faq.EarlierKeywordWins` | main.py:86-89 | when two keywords occur, the later-declared one is never chosen |
| `Faq.ScheduleACallMatchesCall` | main.py:42-43 | "schedule a call" matches "call" (line 42), not "schedule" (line 43) |
| `Faq.IdeaForAMeetingMatchesMeeting` | main.py:41-45 | "an idea for a meeting" matches "meeting" (line 41), not "idea" (line 45) |
| `Faq.HelloThereMatchesNothing` | main.py:30-46 | "hello there" contains none of the 15 keywords |
| `MessageHandler.HandoffText` | main.py:95-98 | the hand-off notice mentions the configured hand-off member |
| `MessageHandler.HandleMessage` | main.py:82-99 | the result is one reply, one hand-off or nothing. It is a reply exactly when a keyword occurs in the lowered text, with the earliest such keyword's answer. It is a hand-off exactly when no keyword occurs and there is no bot id, and the hand-off mentions the member. Replies and hand-offs are threaded on the triggering message's `ts` |
| `MessageHandler.RespondToMessage` | main.py:82-99 | the source's loop with early return computes the same action as the first-match function |
| `MessageHandler.CaseInsensitive` | main.py:83 | messages that differ only in letter case get the same action |
| `MessageHandler.KeywordInAnyCaseIsAnswered` | main.py:83-88 | for a table of lower-case keywords, a keyword written in any mix of cases anywhere in the message triggers an FAQ reply, from that keyword or one declared before it |
| `MessageHandler.BotAnswersKeywordInAnyCase` | main.py:30-46 | on the bot's own table, any casing of any of the 15 keywords in a message is answered, by that keyword or an earlier one |
| `MessageHandler.MatchIgnoresBotId` | main.py:86-94 | when a keyword occurs, the action is the same reply whether or not the message has a bot id |
| `MessageHandler.ScheduleACallGetsCallAnswer` | main.py:83-89 | a message "Schedule a CALL" is answered with the "call" answer, threaded on its `ts`, from a bot or a person |
| `MessageHandler.IdeaForAMeetingGetsMeetingAnswer` | main.py:83-89 | a message "An idea for a Meeting" gets the booking answer, not the campaign-idea answer, threaded on its `ts` |
| `MessageHandler.ActionWithoutMatch` | main.py:94-99 | when no keyword matches the lowered text, the message is handed off if it has no bot id and gets no reply if it has one |
| `MessageHandler.GreetingHandoffOrSilence` | main.py:94-99 | the keyword-free message "Hello there" is handed off when a person sent it and gets no reply when a bot sent it |
| `Welcome.Greeting` | main.py:68-71 | each welcome text mentions the member who joined |
| `Welcome.GreetingsDiffer` | main.py:67-76 | the live and onboarding texts are different for every user |
| `Welcome.GreetingFor` | main.py:67-76 | the live text is chosen exactly when the channel name contains `live_responses`, and the onboarding text exactly when it does not |
| `Welcome.WelcomeMessage` | main.py:52-78 | nothing is sent exactly when the lookup raises. Otherwise one text goes to the joined channel: the live text exactly when the looked-up name contains `live_responses`, else the onboarding text, which is also what a not-ok lookup gets |
| `Welcome.ChannelNameChoosesGreeting` | main.py:67-76 | "acme_live_responses" gets the live text and "acme-cxcleverviral" gets the onboarding text |
| `Webhook.WellFormed` | main.py:123 | a body passes the gate exactly when it is a JSON object holding both `summary` and `channel`; the emptiness test adds nothing, because such an object is never empty |
| `Webhook.SummaryText` | main.py:133 | the posted text is the fixed header followed by the summary, unchanged |
| `Webhook.SummaryOf` | main.py:133 | reading a posted message back yields a summary exactly when the message starts with the header, and re-posting that summary rebuilds the message |
| `Webhook.SummaryRoundTrip` | main.py:133 | the posted text gives back exactly the summary that was sent |
| `Webhook.TranscriptSummaryAsWritten` | main.py:119-135 | the result is always a refusal or one post. It refuses exactly the bodies that are missing, empty, or lack `summary` or `channel`, with an `error` body, the value 400 inside the body and status 200. Otherwise it makes one post to `data["channel"]` whose text decodes to `data["summary"]` |
| `Webhook.TranscriptSummary` | main.py:119-135 | the same gate and post, with the refusal sent as status 400 and the error object alone |
| `Webhook.AsWrittenDiffersOnlyInRejection` | main.py:123-124 | the as-written and intended handlers agree on every accepted body; a refusal is answered with status 200 and the 400 inside the body as written, and with status 400 and the error object alone as intended, and nothing else about the refusal differs |
| `Webhook.MissingSummaryAnsweredWith200` | main.py:123-124 | the body `{"channel": "general"}` is refused with status 200 as written, and with 400 as intended |
| `Webhook.CompletePayloadIsPosted` | main.py:126-133 | `{"summary": "call notes", "channel": "general"}` becomes one post to `general` of the header followed by `call notes` |

## Left out

- Slack Bolt and Flask wiring: the app and handler objects, the routes `/slack/events`, `/slack/commands` and `/health`, and server start-up (main.py:17-26, 143-162). This is framework plumbing with no decision in it.
- Environment loading (main.py:8-12, 161): the booking link and the hand-off member id are parameters. The token and the signing secret are not used by any decision.
- `/new-campaign` (main.py:104-112): it acknowledges and posts a fixed template, with no decision to model.
- The webhook's response after the post (main.py:129-138): 200 with `success`, or 500 with the exception text. It depends only on whether the external post call fails.
- Calls to the chat platform (`say`, `conversations_info`, `chat_postMessage`) are represented by the returned `Action` and by the lookup outcome `Found`/`NotOk`/`Raised`. A `KeyError` on the lookup's fields is caught by the same `except` and counts as `Raised`.
- Text.ToLower: lowers only the ASCII letters A-Z. Python's `str.lower()` also maps non-ASCII letters, and can change the length of a string. All keywords and markers are ASCII, so only messages whose non-ASCII letters lower to ASCII would be decided differently.
- Webhook.TranscriptSummary: the body is modelled as no JSON, or as a JSON object with string values. Non-string field values are not modelled: the source formats them with `str()` inside the `try` and posts the result. A top-level JSON list, string, number or boolean is not modelled either: with one of those, Python's `in` and indexing behave differently or raise outside the `try`. Which of "no JSON" or an error response Flask produces for a non-JSON request depends on the Flask version.
- MessageHandler.HandleMessage: the message's `text` and `ts` are always present. A message event without `text` makes the source raise before any decision is taken.

## Findings

| source | as written | input that shows it | evidently intended | confidence | as-written member | corrected member |
|---|---|---|---|---|---|---|
| main.py:124 | `jsonify({...}, 400)` passes 400 to `jsonify` as a second value. Flask serializes it into a JSON array `[{"status": "error", ...}, 400]` and leaves the HTTP status at 200 | body `{"channel": "general"}` | HTTP status 400 with the error object as the body, i.e. `return jsonify({...}), 400`, as the success and failure paths at lines 135 and 138 do | high; not executed | `Webhook.TranscriptSummaryAsWritten` (shown by `Webhook.MissingSummaryAnsweredWith200`) | `Webhook.TranscriptSummary` |
