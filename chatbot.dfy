/** The chat widget's scripted responder: the visitor's message is lower-cased
    and checked against five keyword groups in a fixed order; the first group
    that matches picks the pool a canned answer is drawn from, and a message
    that matches none is answered from the fallback pool. */
module Chatbot {
  import opened Wrappers
  import opened Text

  /** The response pools, in the order the responder consults them (the
      greeting is used only when the chat is first opened). */
  datatype Topic = Greeting | Events | Membership | Equipment | Training | History | Fallback

  const GreetingResponses: seq<string> := [
    "Ave! Welcome to S.C.E.A.R. How may I assist you today?",
    "Salve! I'm the S.C.E.A.R. assistant. How can I help you with our Roman historical society?"
  ]

  const EventsResponses: seq<string> := [
    "Our next major event is the Summer Roman Festival on June 15-16, 2025 in Hyde Park. We also have weekly training sessions every Saturday at our headquarters. Would you like details on any specific event?",
    "We have several upcoming events! The Annual Reenactment is scheduled for May 20th, and our Educational Workshop Series begins on June 2nd. You can view our full calendar on the Events page."
  ]

  const MembershipResponses: seq<string> := [
    "Joining S.C.E.A.R. is easy! We offer several membership types starting at £25/year. Benefits include training sessions, equipment loans, and participation in events. Visit our Join Us page to apply, or I can guide you through the membership options.",
    "To become a member, you can apply through our Join Us page. We offer Standard, Student, Family, and Supporter memberships with different benefits. Would you like me to explain each type?"
  ]

  const EquipmentResponses: seq<string> := [
    "Members typically need to acquire or create authentic Roman equipment. For beginners, we offer equipment loans and workshops on creating your own gear. We also provide guidance and resources on historical accuracy.",
    "We recommend starting with basic items like a tunic and caligae (Roman boots). The society can help with loaning equipment to new members and provide guidance on purchasing or crafting authentic items."
  ]

  const TrainingResponses: seq<string> := [
    "We hold regular training sessions every Saturday from 10am to 2pm. These cover formation drills, equipment use, and historical context. No experience is necessary for beginners - we welcome all skill levels!",
    "Our training program covers all aspects of Roman military reenactment, from basic drill to complex formations. Sessions are held weekly, and we also offer specialized workshops throughout the year."
  ]

  const HistoryResponses: seq<string> := [
    "The Roman auxiliary forces (auxilia) were non-citizen troops attached to the Roman legions. They provided specialized skills such as archery, cavalry, and scouting. By the end of their service, many auxiliaries were granted Roman citizenship.",
    "Roman military history spans over 1000 years, from the early Republic to the Byzantine era. Our society focuses primarily on the Imperial period (27 BCE - 476 CE), which featured the professional standing army and the famous legions."
  ]

  const FallbackResponses: seq<string> := [
    "I don't have specific information on that topic. Perhaps you could email us at info@scear.org or visit our Contact page for more assistance?",
    "I'm not sure about that, but our team would be happy to help. Would you like me to direct you to our Contact page?",
    "That's beyond my current knowledge. Please consider reaching out through our Contact form for more detailed information."
  ]

  function Pool(t: Topic): (pool: seq<string>)
    ensures |pool| >= 2
  {
    match t
    case Greeting => GreetingResponses
    case Events => EventsResponses
    case Membership => MembershipResponses
    case Equipment => EquipmentResponses
    case Training => TrainingResponses
    case History => HistoryResponses
    case Fallback => FallbackResponses
  }

  /** The lengths of the answers of each pool; no length occurs in two pools. */
  function AnswerLengths(t: Topic): set<int>
  {
    match t
    case Greeting => {54, 90}
    case Events => {203, 189}
    case Membership => {249, 186}
    case Equipment => {214, 201}
    case Training => {207, 197}
    case History => {242, 233}
    case Fallback => {140, 114, 120}
  }

  lemma PoolLengths(t: Topic)
    ensures forall answer :: answer in Pool(t) ==> |answer| in AnswerLengths(t)
  {
    match t
    case Greeting =>
      assert |GreetingResponses[0]| == 54 && |GreetingResponses[1]| == 90;
    case Events =>
      assert |EventsResponses[0]| == 203 && |EventsResponses[1]| == 189;
    case Membership =>
      assert |MembershipResponses[0]| == 249 && |MembershipResponses[1]| == 186;
    case Equipment =>
      assert |EquipmentResponses[0]| == 214 && |EquipmentResponses[1]| == 201;
    case Training =>
      assert |TrainingResponses[0]| == 207 && |TrainingResponses[1]| == 197;
    case History =>
      assert |HistoryResponses[0]| == 242 && |HistoryResponses[1]| == 233;
    case Fallback =>
      assert |FallbackResponses[0]| == 140 && |FallbackResponses[1]| == 114 && |FallbackResponses[2]| == 120;
  }

  lemma LengthsDisjoint(t: Topic, u: Topic, n: int)
    requires t != u && n in AnswerLengths(t)
    ensures n !in AnswerLengths(u)
  {
  }

  /** No canned answer belongs to two pools, so an answer tells which pool it came from. */
  lemma PoolsDisjoint(t: Topic, u: Topic, answer: string)
    requires t != u && answer in Pool(t)
    ensures answer !in Pool(u)
  {
    PoolLengths(t);
    PoolLengths(u);
    LengthsDisjoint(t, u, |answer|);
  }

  // ---------------------------------------------------------------------------
  // Keyword classification

  const EventsKeywords: seq<string> := ["event", "festival", "when", "calendar", "date"]
  const MembershipKeywords: seq<string> := ["join", "membership", "member", "sign up", "cost"]
  const EquipmentKeywords: seq<string> := ["equipment", "armor", "weapon", "uniform", "costume"]
  const TrainingKeywords: seq<string> := ["train", "practice", "skill", "learn", "class"]
  const HistoryKeywords: seq<string> := ["history", "roman", "legion", "auxiliary", "empire"]

  /** The keyword groups in the order they are tried. */
  const Consulted: seq<Topic> := [Events, Membership, Equipment, Training, History]

  function Keywords(t: Topic): seq<string>
  {
    match t
    case Events => EventsKeywords
    case Membership => MembershipKeywords
    case Equipment => EquipmentKeywords
    case Training => TrainingKeywords
    case History => HistoryKeywords
    case _ => []
  }

  /** `lowerInput.includes(k1) || ... || lowerInput.includes(k5)` */
  predicate MentionsAny(lowerInput: string, keywords: seq<string>)
  {
    exists i :: 0 <= i < |keywords| && Contains(lowerInput, keywords[i])
  }

  predicate Mentions(lowerInput: string, t: Topic)
  {
    MentionsAny(lowerInput, Keywords(t))
  }

  /** The branch of `generateResponse` a message takes. */
  function Classify(userInput: string): Topic
  {
    var lowerInput := ToLower(userInput);
    if Mentions(lowerInput, Events) then Events
    else if Mentions(lowerInput, Membership) then Membership
    else if Mentions(lowerInput, Equipment) then Equipment
    else if Mentions(lowerInput, Training) then Training
    else if Mentions(lowerInput, History) then History
    else Fallback
  }

  /** The answer comes from the first group, in the fixed order, that has a
      keyword in the lower-cased message; from the fallback pool when no group
      has one; never from the greeting pool. */
  lemma ClassifyIsFirstMatch(userInput: string)
    ensures var l := ToLower(userInput);
      && (Classify(userInput) == Events <==> Mentions(l, Events))
      && (Classify(userInput) == Membership <==> !Mentions(l, Events) && Mentions(l, Membership))
      && (Classify(userInput) == Equipment <==>
            !Mentions(l, Events) && !Mentions(l, Membership) && Mentions(l, Equipment))
      && (Classify(userInput) == Training <==>
            !Mentions(l, Events) && !Mentions(l, Membership) && !Mentions(l, Equipment) && Mentions(l, Training))
      && (Classify(userInput) == History <==>
            !Mentions(l, Events) && !Mentions(l, Membership) && !Mentions(l, Equipment) && !Mentions(l, Training)
            && Mentions(l, History))
      && (Classify(userInput) == Fallback <==> forall t :: t in Consulted ==> !Mentions(l, t))
      && Classify(userInput) != Greeting
  {
  }

  /** A message with any of the event keywords gets an events answer, whatever else it mentions. */
  lemma EventsTakePriority(userInput: string, k: string)
    requires k in EventsKeywords && Contains(ToLower(userInput), k)
    ensures Classify(userInput) == Events
  {
    var i :| 0 <= i < |EventsKeywords| && EventsKeywords[i] == k;
  }

  /** Matching ignores case: a message and its lower-cased form are answered from the same pool. */
  lemma ClassifyIgnoresCase(userInput: string)
    ensures Classify(ToLower(userInput)) == Classify(userInput)
  {
    ToLowerIdempotent(userInput);
  }

  // ---------------------------------------------------------------------------
  // Choosing an answer

  /** `Math.floor(random * len)` for a `random` in [0, 1) as `Math.random` gives. */
  function PickIndex(random: real, len: nat): (k: nat)
    requires 0.0 <= random < 1.0 && len > 0
    ensures k < len
  {
    var x := random * len as real;
    assert x < len as real by {
      assert (len as real) * (1.0 - random) > 0.0;
    }
    x.Floor
  }

  /** `generateResponse`: an answer drawn from the pool of the message's topic. */
  function GenerateResponse(userInput: string, random: real): (answer: string)
    requires 0.0 <= random < 1.0
    ensures answer in Pool(Classify(userInput))
  {
    var pool := Pool(Classify(userInput));
    pool[PickIndex(random, |pool|)]
  }

  /** Every answer lies in exactly one pool: the one for the message's topic. */
  lemma AnswerInExactlyOnePool(userInput: string, random: real, t: Topic)
    requires 0.0 <= random < 1.0
    ensures GenerateResponse(userInput, random) in Pool(t) <==> t == Classify(userInput)
  {
    if t != Classify(userInput) {
      PoolsDisjoint(Classify(userInput), t, GenerateResponse(userInput, random));
    }
  }

  // ---------------------------------------------------------------------------
  // The conversation

  datatype Sender = User | Bot

  /** A chat bubble; its id and timestamp come from the clock and are not modelled. */
  datatype Message = Message(content: string, sender: Sender)

  /** The conversation after one send that is answered before anything else
      happens: nothing for a blank message, else the visitor's message as typed
      and then the bot's answer. */
  function Exchange(history: seq<Message>, input: string, random: real): (after: seq<Message>)
    requires 0.0 <= random < 1.0
    ensures IsBlank(input) ==> after == history
    ensures !IsBlank(input) ==>
              && |after| == |history| + 2
              && after[..|history|] == history
              && after[|history|] == Message(input, User)
              && after[|history| + 1].sender == Bot
              && after[|history| + 1].content in Pool(Classify(input))
  {
    if IsBlank(input) then history
    else history + [Message(input, User), Message(GenerateResponse(input, random), Bot)]
  }

  /** A message of white space only leaves the conversation as it was; any
      other character makes the send go through. */
  lemma BlankIsIgnored(history: seq<Message>, input: string, random: real)
    requires 0.0 <= random < 1.0
    ensures (forall i :: 0 <= i < |input| ==> IsJsWhitespace(input[i])) ==> Exchange(history, input, random) == history
    ensures (exists i :: 0 <= i < |input| && !IsJsWhitespace(input[i])) ==> |Exchange(history, input, random)| == |history| + 2
  {
    IsBlankIff(input);
  }

  class ChatWidget {
    var isOpen: bool
    var inputValue: string
    var messages: seq<Message>
    var isTyping: bool

    constructor ()
      ensures !isOpen && inputValue == "" && messages == [] && !isTyping
    {
      isOpen := false;
      inputValue := "";
      messages := [];
      isTyping := false;
    }

    /** The round chat button opens and closes the window. */
    method ToggleOpen()
      modifies this
      ensures isOpen == !old(isOpen)
      ensures inputValue == old(inputValue) && messages == old(messages) && isTyping == old(isTyping)
    {
      isOpen := !isOpen;
    }

    /** Typing in the input box. */
    method SetInput(value: string)
      modifies this
      ensures inputValue == value
      ensures isOpen == old(isOpen) && messages == old(messages) && isTyping == old(isTyping)
    {
      inputValue := value;
    }

    /** The greeting effect: when the window is open and the conversation
        empty, a greeting is drawn and the typing indicator shown; the
        greeting is returned for the timer to post. Otherwise nothing happens. */
    method StartGreeting(random: real) returns (pending: Option<string>)
      requires 0.0 <= random < 1.0
      modifies this
      ensures isOpen && messages == [] ==>
                pending.Some? && pending.value in Pool(Greeting) && isTyping
      ensures !(isOpen && messages == []) ==> pending == None && isTyping == old(isTyping)
      ensures isOpen == old(isOpen) && inputValue == old(inputValue) && messages == old(messages)
    {
      pending := None;
      if isOpen && |messages| == 0 {
        var greeting := GreetingResponses[PickIndex(random, |GreetingResponses|)];
        isTyping := true;
        pending := Some(greeting);
      }
    }

    /** The greeting effect's timer: the greeting becomes the whole
        conversation and the typing indicator is hidden. */
    method ShowGreeting(greeting: string)
      modifies this
      ensures messages == [Message(greeting, Bot)] && !isTyping
      ensures isOpen == old(isOpen) && inputValue == old(inputValue)
    {
      messages := [Message(greeting, Bot)];
      isTyping := false;
    }

    /** The greeting effect whose timer fires before any other event: a
        greeting is the whole conversation when the window is open and still
        empty, and otherwise nothing happens. */
    method Greet(random: real)
      requires 0.0 <= random < 1.0
      modifies this
      ensures old(isOpen) && old(messages) == [] ==>
                && |messages| == 1 && messages[0].sender == Bot
                && messages[0].content in Pool(Greeting)
                && !isTyping
      ensures !(old(isOpen) && old(messages) == []) ==> messages == old(messages) && isTyping == old(isTyping)
      ensures isOpen == old(isOpen) && inputValue == old(inputValue)
    {
      var pending := StartGreeting(random);
      if pending.Some? {
        ShowGreeting(pending.value);
      }
    }

    /** `handleSendMessage` up to its timer: a blank input is ignored;
        otherwise the visitor's message is appended, the box is cleared and the
        typing indicator shown. The text the timer will answer is returned. */
    method SendMessage() returns (pending: Option<string>)
      modifies this
      ensures IsBlank(old(inputValue)) ==>
                pending == None && messages == old(messages)
                && inputValue == old(inputValue) && isTyping == old(isTyping)
      ensures !IsBlank(old(inputValue)) ==>
                pending == Some(old(inputValue))
                && messages == old(messages) + [Message(old(inputValue), User)]
                && inputValue == "" && isTyping
      ensures isOpen == old(isOpen)
    {
      if IsBlank(inputValue) {
        return None;
      }
      pending := Some(inputValue);
      messages := messages + [Message(inputValue, User)];
      inputValue := "";
      isTyping := true;
    }

    /** The timer of `handleSendMessage`: the bot's answer to `text` is
        appended and the typing indicator hidden. */
    method DeliverReply(text: string, random: real)
      requires 0.0 <= random < 1.0
      modifies this
      ensures messages == old(messages) + [Message(GenerateResponse(text, random), Bot)]
      ensures messages[|messages| - 1].content in Pool(Classify(text))
      ensures !isTyping
      ensures isOpen == old(isOpen) && inputValue == old(inputValue)
    {
      var botResponse := GenerateResponse(text, random);
      messages := messages + [Message(botResponse, Bot)];
      isTyping := false;
    }

    /** A send whose answer arrives before any other event: the conversation
        grows by `Exchange`, and earlier messages are left as they were. */
    method SendAndReply(random: real)
      requires 0.0 <= random < 1.0
      modifies this
      ensures messages == Exchange(old(messages), old(inputValue), random)
      ensures messages[..|old(messages)|] == old(messages)
      ensures IsBlank(old(inputValue)) ==> inputValue == old(inputValue) && isTyping == old(isTyping)
      ensures !IsBlank(old(inputValue)) ==> inputValue == "" && !isTyping
      ensures isOpen == old(isOpen)
    {
      var pending := SendMessage();
      if pending.Some? {
        DeliverReply(pending.value, random);
      }
    }
  }
}
