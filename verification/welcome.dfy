/**
 * `welcome_message`: when someone joins a channel, look the channel's name
 * up and greet them with one of two fixed texts.
 */
module Welcome {
  import opened Text
  import opened Actions

  /** What the channel-info lookup gives back: a name, a reply with `ok` false, or an exception. */
  datatype ChannelLookup = Found(name: string) | NotOk | Raised

  /** Channels whose name contains this are live-notification channels. */
  const LiveMarker := "live_responses"

  /** The fixed text after the greeting line of the live-notifications welcome. */
  const LiveTail := "! This channel is for real-time notifications of all positive replies from our campaigns. You can monitor lead activity here."

  /** The fixed text after the greeting line of the onboarding welcome. */
  const OnboardingTail :=
    "! This is your primary communication channel with the CleverViral team. "
    + "Here we'll discuss strategy, share updates, and collaborate on your campaigns.\n\n"
    + "A few quick links to get you started:\n"
    + "\U{2022} Access your Dashboard & Master Inbox: https://gtm.cleverviral.co\n"
    + "\U{2022} To suggest a new campaign, just type `/new-campaign`"

  /** "Welcome <@user>" followed by a fixed text; it always mentions the user. */
  function Greeting(userId: string, tail: string): (s: string)
    ensures Contains(Mention(userId), s)
  {
    ContainsConcat("Welcome ", Mention(userId), tail);
    "Welcome " + Mention(userId) + tail
  }

  function LiveText(userId: string): string {
    Greeting(userId, LiveTail)
  }

  function OnboardingText(userId: string): string {
    Greeting(userId, OnboardingTail)
  }

  /** The two greetings never coincide, whatever the user id. */
  lemma GreetingsDiffer(userId: string)
    ensures LiveText(userId) != OnboardingText(userId)
  {
    assert |LiveTail| < |OnboardingTail|;
  }

  /** The greeting chosen by channel name: the live text exactly for live-notification channels. */
  function GreetingFor(userId: string, channelName: string): (s: string)
    ensures s == LiveText(userId) <==> Contains(LiveMarker, channelName)
    ensures s == OnboardingText(userId) <==> !Contains(LiveMarker, channelName)
  {
    GreetingsDiffer(userId);
    if Contains(LiveMarker, channelName) then LiveText(userId) else OnboardingText(userId)
  }

  /**
   * The decision of `welcome_message`. A lookup that raises sends nothing;
   * otherwise the channel name is the looked-up name, or empty when the
   * reply is not ok, and the live greeting goes out exactly when that name
   * contains the live marker. The greeting is said in the joined channel.
   */
  function WelcomeMessage(userId: string, channelId: string, lookup: ChannelLookup): (r: Action)
    ensures r.Post? || r.NoReply?
    ensures r.NoReply? <==> lookup.Raised?
    ensures r.Post? ==> r.channel == channelId && Contains(Mention(userId), r.text)
    ensures r.Post? ==> (r.text == LiveText(userId) <==> lookup.Found? && Contains(LiveMarker, lookup.name))
    ensures r.Post? ==> (r.text == OnboardingText(userId) <==> !(lookup.Found? && Contains(LiveMarker, lookup.name)))
    ensures lookup.NotOk? ==> r == Post(channelId, OnboardingText(userId))
  {
    GreetingsDiffer(userId);
    match lookup
    case Raised => NoReply
    case NotOk => Post(channelId, GreetingFor(userId, ""))
    case Found(name) => Post(channelId, GreetingFor(userId, name))
  }

  /** A client's live-responses channel gets the live greeting; their main channel gets onboarding. */
  lemma ChannelNameChoosesGreeting(userId: string, channelId: string)
    ensures WelcomeMessage(userId, channelId, Found("acme_live_responses")) == Post(channelId, LiveText(userId))
    ensures WelcomeMessage(userId, channelId, Found("acme-cxcleverviral")) == Post(channelId, OnboardingText(userId))
  {
    var live := "acme_live_responses";
    assert live[5..] == LiveMarker;
    assert OccursAt(LiveMarker, live, 5);
    AbsentCharExcludes(LiveMarker, "acme-cxcleverviral", 'p');
  }
}
