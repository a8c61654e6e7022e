/**
 * The Savvy Bee conversation: an append-only list of messages. Every send
 * appends the user's text, then the canned reply sequence that a
 * case-insensitive keyword test on the text selects. The two reply timers
 * (1000 ms, then another 1000 ms) are taken as immediate, sequential steps.
 */
module ChatInterface {
  import opened JsString
  import ChatInput

  /** The `type` tag of a message; only bot messages use the non-default ones. */
  datatype MessageType = Default | Analyse | Heal

  datatype Message = Message(text: string, isBot: bool, kind: MessageType)

  const Greeting: string :=
    "Hi there! I'm Savvy Bee \U{1F41D}, your financial wellness buddy. How can I help you today?"
  const AnalyseText: string :=
    "Analyse Mode: Based on your message, I can see you're thinking about your spending. Without your actual data, I can't provide specific insights yet, but I'd be happy to help track your budget once you share some information!"
  const BreathingOfferText: string :=
    "Heal Mode: Thinking about money can sometimes feel overwhelming. Remember to take a deep breath and celebrate that you're taking positive steps by just asking about it! Would you like to try a quick 30-second breathing exercise?"
  const CalmingText: string :=
    "Heal Mode: I notice you're feeling a bit stressed. That's completely understandable! Financial concerns affect our mental wellbeing. Let's take a moment - try this: close your eyes, take 3 slow breaths, and imagine your worries floating away on a gentle breeze."
  const FallbackText: string :=
    "I'd love to help you with that! To give you more specific guidance about your finances or wellbeing, could you share a bit more about what's on your mind? Or perhaps you'd like some general tips on saving?"

  /** `initialMessages`: the conversation opens with one bot greeting. */
  function InitialMessages(): (r: seq<Message>)
    ensures |r| == 1 && r[0].isBot && r[0].kind == Default
  {
    [Message(Greeting, true, Default)]
  }

  /** The message that echoes what the user typed. */
  function UserMessage(text: string): Message {
    Message(text, false, Default)
  }

  /** The lower-cased text mentions money: "budget" or "spend" occurs somewhere in it. */
  predicate MentionsMoney(text: string): (mentions: bool)
    ensures mentions <==> OccursIn(Lower(text), "budget") || OccursIn(Lower(text), "spend")
  {
    IncludesIff(Lower(text), "budget");
    IncludesIff(Lower(text), "spend");
    Includes(Lower(text), "budget") || Includes(Lower(text), "spend")
  }

  /** The lower-cased text mentions worry: "stress", "worry" or "anxious" occurs somewhere in it. */
  predicate MentionsWorry(text: string): (mentions: bool)
    ensures mentions <==> OccursIn(Lower(text), "stress") || OccursIn(Lower(text), "worry")
                          || OccursIn(Lower(text), "anxious")
  {
    IncludesIff(Lower(text), "stress");
    IncludesIff(Lower(text), "worry");
    IncludesIff(Lower(text), "anxious");
    Includes(Lower(text), "stress") || Includes(Lower(text), "worry") || Includes(Lower(text), "anxious")
  }

  /** Which of the three canned reply sequences a send produces. */
  datatype ReplyPlan = AnalyseThenHeal | HealOnly | Fallback

  /** The keyword dispatch; the money test is tried first. */
  function SelectReply(text: string): (plan: ReplyPlan)
    ensures plan == AnalyseThenHeal <==> MentionsMoney(text)
    ensures plan == HealOnly <==> !MentionsMoney(text) && MentionsWorry(text)
    ensures plan == Fallback <==> !MentionsMoney(text) && !MentionsWorry(text)
  {
    if MentionsMoney(text) then AnalyseThenHeal
    else if MentionsWorry(text) then HealOnly
    else Fallback
  }

  /** The bot messages a plan appends, in order. */
  function Replies(plan: ReplyPlan): (r: seq<Message>)
    ensures forall i :: 0 <= i < |r| ==> r[i].isBot
    ensures plan == AnalyseThenHeal ==> |r| == 2 && r[0].kind == Analyse && r[1].kind == Heal
    ensures plan == HealOnly ==> |r| == 1 && r[0].kind == Heal
    ensures plan == Fallback ==> |r| == 1 && r[0].kind == Default
  {
    match plan
    case AnalyseThenHeal => [Message(AnalyseText, true, Analyse), Message(BreathingOfferText, true, Heal)]
    case HealOnly => [Message(CalmingText, true, Heal)]
    case Fallback => [Message(FallbackText, true, Default)]
  }

  /** The message list after one send of `text` to a conversation holding `log`. */
  function AfterSend(log: seq<Message>, text: string): (r: seq<Message>)
    ensures |log| + 2 <= |r| <= |log| + 3
    ensures r[..|log|] == log
    ensures r[|log|] == UserMessage(text)
    ensures forall i :: |log| < i < |r| ==> r[i].isBot
    ensures |r| == |log| + 3 <==> MentionsMoney(text)
    ensures MentionsMoney(text) ==> r[|log| + 1].kind == Analyse && r[|log| + 2].kind == Heal
    ensures !MentionsMoney(text) && MentionsWorry(text) ==> r[|log| + 1].kind == Heal
    ensures !MentionsMoney(text) && !MentionsWorry(text) ==> r[|log| + 1].kind == Default
  {
    log + [UserMessage(text)] + Replies(SelectReply(text))
  }

  // ---------------------------------------------------------------------------
  // Keyword dispatch
  // ---------------------------------------------------------------------------

  /**
   * A money keyword written in any letter case anywhere in the text selects
   * the analyse-then-heal pair, whatever else the text says.
   */
  lemma MoneyKeywordAnywhere(pre: string, keyword: string, post: string)
    requires Lower(keyword) == "budget" || Lower(keyword) == "spend"
    ensures SelectReply(pre + keyword + post) == AnalyseThenHeal
  {
    LowerConcat(pre + keyword, post);
    LowerConcat(pre, keyword);
    IncludesInside(Lower(pre), Lower(keyword), Lower(post));
  }

  /**
   * A worry keyword written in any letter case anywhere in a text that does
   * not mention money selects the single heal reply.
   */
  lemma WorryKeywordAnywhere(pre: string, keyword: string, post: string)
    requires Lower(keyword) == "stress" || Lower(keyword) == "worry" || Lower(keyword) == "anxious"
    requires !MentionsMoney(pre + keyword + post)
    ensures SelectReply(pre + keyword + post) == HealOnly
  {
    LowerConcat(pre + keyword, post);
    LowerConcat(pre, keyword);
    IncludesInside(Lower(pre), Lower(keyword), Lower(post));
  }

  /** A text holding both "budget" and "stress" gets the pair, never the stress-only reply. */
  lemma MoneyTakesPrecedence(text: string)
    requires MentionsMoney(text) && MentionsWorry(text)
    ensures SelectReply(text) == AnalyseThenHeal && SelectReply(text) != HealOnly
  {
  }

  /** The dispatch reads only the lower-cased text. */
  lemma SelectReplyIgnoresCase(text: string)
    ensures SelectReply(Lower(text)) == SelectReply(text)
  {
    LowerIdempotent(text);
  }

  /** "SPENDING" matches "spend". */
  lemma ShoutedSpendingIsMoney()
    ensures SelectReply("SPENDING") == AnalyseThenHeal
  {
    assert Lower("SPEND") == "spend";
    MoneyKeywordAnywhere("", "SPEND", "ING");
    assert "" + "SPEND" + "ING" == "SPENDING";
  }

  /** "Stressed" matches "stress" and mentions no money. */
  lemma CapitalisedStressIsWorry()
    ensures SelectReply("Stressed") == HealOnly
  {
    StressedNoMoney();
    StressedWorry();
  }

  /** "Stressed" holds neither "budget" nor "spend": it has no 'b' and no 'p'. */
  lemma StressedNoMoney()
    ensures !MentionsMoney("Stressed")
  {
    assert Lower("Stressed") == "stressed";
    assert 'b' !in "stressed" && 'p' !in "stressed";
    if Includes("stressed", "budget") { IncludesOnlyPresentChars("stressed", "budget", 0); }
    if Includes("stressed", "spend") { IncludesOnlyPresentChars("stressed", "spend", 1); }
  }

  /** "Stressed" lower-cases to a text that starts with "stress". */
  lemma StressedWorry()
    ensures MentionsWorry("Stressed")
  {
    assert Lower("Stressed") == "stressed";
    IncludesInside("", "stress", "ed");
    assert "" + "stress" + "ed" == "stressed";
  }

  /** The quick prompt "Help me create a budget" gets the analyse-then-heal pair. */
  lemma BudgetPromptIsMoney()
    ensures SelectReply("Help me create a budget") == AnalyseThenHeal
  {
    LowerOfLowerCase("budget");
    MoneyKeywordAnywhere("Help me create a ", "budget", "");
    assert "Help me create a " + "budget" + "" == "Help me create a budget";
  }

  // ---------------------------------------------------------------------------
  // Whole conversations
  // ---------------------------------------------------------------------------

  /** The message list after the user sends `sends`, in order, to a fresh conversation. */
  function Conversation(sends: seq<string>): seq<Message>
    decreases |sends|
  {
    if sends == [] then InitialMessages()
    else AfterSend(Conversation(sends[..|sends| - 1]), sends[|sends| - 1])
  }

  /** The texts of the user's messages, in order. */
  function UserTexts(log: seq<Message>): seq<string>
    decreases |log|
  {
    if log == [] then []
    else if log[|log| - 1].isBot then UserTexts(log[..|log| - 1])
    else UserTexts(log[..|log| - 1]) + [log[|log| - 1].text]
  }

  lemma {:induction false} UserTextsConcat(a: seq<Message>, b: seq<Message>)
    ensures UserTexts(a + b) == UserTexts(a) + UserTexts(b)
    decreases |b|
  {
    if b != [] {
      assert (a + b)[..|a + b| - 1] == a + b[..|b| - 1];
      UserTextsConcat(a, b[..|b| - 1]);
    } else {
      assert a + b == a;
    }
  }

  /** One send adds exactly the sent text to the user's messages. */
  lemma UserTextsAfterSend(log: seq<Message>, text: string)
    ensures UserTexts(AfterSend(log, text)) == UserTexts(log) + [text]
  {
    var replies := Replies(SelectReply(text));
    UserTextsConcat(log + [UserMessage(text)], replies);
    UserTextsConcat(log, [UserMessage(text)]);
    assert UserTexts([UserMessage(text)]) == [text] by {
      assert [UserMessage(text)][..0] == [];
    }
    assert UserTexts(replies) == [] by {
      if |replies| == 2 {
        assert replies[..1][..0] == [];
      } else {
        assert replies[..0] == [];
      }
    }
  }

  /** Every text the user sent appears in the log unchanged, once, and in order; nothing else is a user message. */
  lemma {:induction false} ConversationRecordsSends(sends: seq<string>)
    ensures UserTexts(Conversation(sends)) == sends
    decreases |sends|
  {
    if sends == [] {
      assert UserTexts(InitialMessages()) == [];
    } else {
      var prev := sends[..|sends| - 1];
      ConversationRecordsSends(prev);
      UserTextsAfterSend(Conversation(prev), sends[|sends| - 1]);
      assert sends == prev + [sends[|sends| - 1]];
    }
  }

  /**
   * The greeting stays first, and each send grows the log by two or three
   * messages.
   */
  lemma {:induction false} ConversationShape(sends: seq<string>)
    ensures |Conversation(sends)| >= 1 && Conversation(sends)[0] == InitialMessages()[0]
    ensures 1 + 2 * |sends| <= |Conversation(sends)| <= 1 + 3 * |sends|
    decreases |sends|
  {
    if sends != [] {
      ConversationShape(sends[..|sends| - 1]);
    }
  }

  // ---------------------------------------------------------------------------
  // The component
  // ---------------------------------------------------------------------------

  class Chat {
    /** The `messages` state. */
    var messages: seq<Message>

    constructor ()
      ensures messages == InitialMessages()
    {
      messages := InitialMessages();
    }

    /** `handleSendMessage`: append the user's text, then the selected replies. */
    method HandleSendMessage(text: string)
      modifies this
      ensures messages == AfterSend(old(messages), text)
    {
      messages := messages + [UserMessage(text)];
      var lower := Lower(text);
      if Includes(lower, "budget") || Includes(lower, "spend") {
        messages := messages + [Message(AnalyseText, true, Analyse)];
        messages := messages + [Message(BreathingOfferText, true, Heal)];
      } else if Includes(lower, "stress") || Includes(lower, "worry") || Includes(lower, "anxious") {
        messages := messages + [Message(CalmingText, true, Heal)];
      } else {
        messages := messages + [Message(FallbackText, true, Default)];
      }
    }

    /**
     * The chat input's submit wired to `handleSendMessage`: a blank field leaves
     * the conversation as it was.
     */
    method SubmitInput(input: ChatInput.ChatInputField)
      modifies this, input
      ensures ChatInput.IsBlank(old(input.message)) ==> messages == old(messages) && input.message == old(input.message)
      ensures !ChatInput.IsBlank(old(input.message)) ==>
                messages == AfterSend(old(messages), old(input.message)) && input.message == []
    {
      var sent := input.HandleSubmit();
      if sent.Some? {
        HandleSendMessage(sent.value);
      }
    }
  }
}
