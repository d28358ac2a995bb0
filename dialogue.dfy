/**
 * src/dialogue_agent.py: the intent classifier and the action planner.
 * The language-model completion is an oracle: any function from the
 * transcript and the history to a reply, which either failed (an exception or
 * a JSON parse error) or parsed to some JSON object.
 */
module Dialogue {
  import opened Text

  const AGREES_TO_PAY := "AGREES_TO_PAY"
  const REFUSES_TO_PAY := "REFUSES_TO_PAY"
  const UNCLEAR := "UNCLEAR"

  /** The keyword lists, tried in this order. */
  const AFFIRMATIVE_WORDS: seq<string> := ["yes", "pay", "sure", "okay"]
  const REFUSAL_WORDS: seq<string> := ["no", "can't", "later", "problem"]

  /** A parsed JSON object, as far as the planner reads it: string keys to string values. */
  type Json = map<string, string>

  datatype LlmReply = Failed | Parsed(json: Json)

  /** `Dialogue_agent(use_groq=False)` or `Dialogue_agent(use_groq=True)` with its completion service. */
  datatype DialogueAgent =
    | KeywordAgent
    | LlmAgent(complete: (string, seq<string>) -> LlmReply)

  /** One entry of an action plan's payload. */
  datatype Action = Reply(text: string) | SendSms(message: string) | EndCall(text: string)

  /** The three plan shapes `get_next_action` builds, each with the classified intent attached. */
  datatype ActionPlan =
    | SequencePlan(payload: seq<Action>, intent: string)
    | EndCallPlan(text: string, intent: string)
    | ReplyPlan(text: string, intent: string)

  /** `d.get(key, default)`. */
  function Get(d: map<string, string>, key: string, default: string): string {
    if key in d then d[key] else default
  }

  /** The keyword branch of `_classify_intent`: the history is not consulted. */
  function KeywordIntent(transcript: string): string {
    var t := Lower(transcript);
    if ContainsAny(t, AFFIRMATIVE_WORDS) then AGREES_TO_PAY
    else if ContainsAny(t, REFUSAL_WORDS) then REFUSES_TO_PAY
    else UNCLEAR
  }

  /** `_classify_intent`: the dictionary the classifier returns. */
  function ClassifyIntent(agent: DialogueAgent, transcript: string, history: seq<string>): (r: Json)
    ensures agent.KeywordAgent? ==> r == map["intent" := KeywordIntent(transcript)]
    ensures agent.LlmAgent? && agent.complete(transcript, history).Failed? ==> r == map["intent" := UNCLEAR]
  {
    match agent
    case KeywordAgent => map["intent" := KeywordIntent(transcript)]
    case LlmAgent(complete) =>
      match complete(transcript, history)
      case Failed => map["intent" := UNCLEAR]
      case Parsed(json) => json
  }

  /** The intent the planner acts on: a classification without an "intent" key counts as UNCLEAR. */
  function IntentOf(agent: DialogueAgent, transcript: string, history: seq<string>): string {
    Get(ClassifyIntent(agent, transcript, history), "intent", UNCLEAR)
  }

  function AgreeReply(name: string): string {
    "Excellent. Thank you, " + name + ". To make it easy, I am sending a secure payment link to your phone right now."
  }

  function PaymentSms(name: string, amount: string): string {
    "Hello " + name + ", here is your link to pay the outstanding amount of $" + amount + ". Link: https://your-secure-link.com/pay"
  }

  const LINK_SENT_GOODBYE := "The link has been sent. Thank you for your time. Goodbye."

  function RefusalGoodbye(name: string): string {
    "I understand. We've made a note of your response. Thank you for your time, " + name + ". Goodbye."
  }

  const REPEAT_REQUEST := "I'm sorry, I didn't quite catch that. Could you please repeat it?"

  /** `get_next_action(last_transcript, customer_data, conversation_history)`. */
  function GetNextAction(agent: DialogueAgent, transcript: string, customer: map<string, string>,
                         history: seq<string>): (r: ActionPlan)
    ensures r.intent == IntentOf(agent, transcript, history)
    ensures r.SequencePlan? <==> r.intent == AGREES_TO_PAY
    ensures r.EndCallPlan? <==> r.intent == REFUSES_TO_PAY
    ensures r.SequencePlan? ==>
      && |r.payload| == 3
      && r.payload[0].Reply? && r.payload[1].SendSms? && r.payload[2].EndCall?
      && Contains(r.payload[1].message, Get(customer, "name", "there"))
      && Contains(r.payload[1].message, Get(customer, "loan_amount", "your amount"))
      && EndsWith(r.payload[2].text, "Goodbye.")
    ensures r.EndCallPlan? ==>
      Contains(r.text, Get(customer, "name", "there")) && EndsWith(r.text, "Goodbye.")
    ensures r.ReplyPlan? ==> r.text == REPEAT_REQUEST
  {
    var name := Get(customer, "name", "there");
    var amount := Get(customer, "loan_amount", "your amount");
    var intent := IntentOf(agent, transcript, history);
    if intent == AGREES_TO_PAY then
      PaymentSmsMentions(name, amount);
      LinkSentGoodbyeEnds();
      SequencePlan([Reply(AgreeReply(name)), SendSms(PaymentSms(name, amount)), EndCall(LINK_SENT_GOODBYE)], intent)
    else if intent == REFUSES_TO_PAY then
      RefusalGoodbyeMentions(name);
      EndCallPlan(RefusalGoodbye(name), intent)
    else
      ReplyPlan(REPEAT_REQUEST, intent)
  }

  lemma PaymentSmsMentions(name: string, amount: string)
    ensures Contains(PaymentSms(name, amount), name)
    ensures Contains(PaymentSms(name, amount), amount)
  {
    var tail := ". Link: https://your-secure-link.com/pay";
    var s := PaymentSms(name, amount);
    var a := "Hello ";
    var b := ", here is your link to pay the outstanding amount of $";
    assert s == a + name + (b + amount + tail);
    ContainsInfix(a, name, b + amount + tail);
    assert s == (a + name + b) + amount + tail;
    ContainsInfix(a + name + b, amount, tail);
  }

  lemma RefusalGoodbyeMentions(name: string)
    ensures Contains(RefusalGoodbye(name), name)
    ensures EndsWith(RefusalGoodbye(name), "Goodbye.")
  {
    var a := "I understand. We've made a note of your response. Thank you for your time, ";
    var b := ". Goodbye.";
    assert RefusalGoodbye(name) == a + name + b;
    ContainsInfix(a, name, b);
    EndsWithConcat(a + name + ". ", "Goodbye.");
    assert RefusalGoodbye(name) == (a + name + ". ") + "Goodbye.";
  }

  lemma LinkSentGoodbyeEnds()
    ensures EndsWith(LINK_SENT_GOODBYE, "Goodbye.")
  {
    EndsWithConcat("The link has been sent. Thank you for your time. ", "Goodbye.");
    assert LINK_SENT_GOODBYE == "The link has been sent. Thank you for your time. " + "Goodbye.";
  }

  /** An affirmative word anywhere outranks every refusal word: "I can't pay" agrees to pay. */
  lemma CantPayAgrees()
    ensures KeywordIntent("I can't pay") == AGREES_TO_PAY
  {
    var t := Lower("I can't pay");
    assert t[8..11] == "pay";
    OccursContains(t, "pay", 8);
    assert "pay" in AFFIRMATIVE_WORDS;
  }

  /** "problem", spelt out letter by letter. */
  predicate SaysProblem(t: string) {
    && |t| == 7 && t[0] == 'p' && t[1] == 'r' && t[2] == 'o' && t[3] == 'b'
    && t[4] == 'l' && t[5] == 'e' && t[6] == 'm'
  }

  /** "problem" (in any case) holds no affirmative word, so it is a refusal. */
  lemma ProblemRefuses(transcript: string)
    requires SaysProblem(Lower(transcript))
    ensures KeywordIntent(transcript) == REFUSES_TO_PAY
  {
    var t := Lower(transcript);
    ProblemHasNoAffirmative(t);
    ProblemIsRefusalWord(t);
  }

  lemma ProblemHasNoAffirmative(t: string)
    requires SaysProblem(t)
    ensures !ContainsAny(t, AFFIRMATIVE_WORDS)
  {
    NoOccurrence(t, "yes");
    assert t[0..3][1] != "pay"[1];
    NoOccurrence(t, "pay");
    NoOccurrence(t, "sure");
    assert t[2..6][1] != "okay"[1];
    NoOccurrence(t, "okay");
  }

  lemma ProblemIsRefusalWord(t: string)
    requires SaysProblem(t)
    ensures ContainsAny(t, REFUSAL_WORDS)
  {
    assert t[0..7] == "problem";
    OccursContains(t, "problem", 0);
    assert REFUSAL_WORDS[3] == "problem";
  }

  /** Reduces `!Contains` on a concrete string to a check at every index. */
  lemma NoOccurrence(hay: string, needle: string)
    requires |needle| > 0
    requires forall i :: 0 <= i <= |hay| - |needle| ==> hay[i] != needle[0] || hay[i..i + |needle|] != needle
    ensures !Contains(hay, needle)
  {
    ContainsIff(hay, needle);
  }

  /**
   * The keyword classifier decides on word occurrences in the lower-cased
   * transcript: affirmative first, then refusal, otherwise UNCLEAR.
   */
  lemma {:induction false} KeywordIntentMeaning(transcript: string)
    ensures var t := Lower(transcript);
      && (KeywordIntent(transcript) == AGREES_TO_PAY <==>
            exists k, i :: 0 <= k < |AFFIRMATIVE_WORDS| && OccursAt(t, AFFIRMATIVE_WORDS[k], i))
      && (KeywordIntent(transcript) == REFUSES_TO_PAY <==>
            && (forall k, i :: 0 <= k < |AFFIRMATIVE_WORDS| ==> !OccursAt(t, AFFIRMATIVE_WORDS[k], i))
            && exists k, i :: 0 <= k < |REFUSAL_WORDS| && OccursAt(t, REFUSAL_WORDS[k], i))
      && (KeywordIntent(transcript) == UNCLEAR <==>
            forall k, i :: (0 <= k < |AFFIRMATIVE_WORDS| ==> !OccursAt(t, AFFIRMATIVE_WORDS[k], i))
                        && (0 <= k < |REFUSAL_WORDS| ==> !OccursAt(t, REFUSAL_WORDS[k], i)))
  {
    var t := Lower(transcript);
    forall k | 0 <= k < |AFFIRMATIVE_WORDS| { ContainsIff(t, AFFIRMATIVE_WORDS[k]); }
    forall k | 0 <= k < |REFUSAL_WORDS| { ContainsIff(t, REFUSAL_WORDS[k]); }
  }

  /** Once a transcript agrees to pay, whatever else is said around it still agrees to pay. */
  lemma AgreementSurvivesContext(transcript: string, before: string, after: string)
    requires KeywordIntent(transcript) == AGREES_TO_PAY
    ensures KeywordIntent(before + transcript + after) == AGREES_TO_PAY
  {
    LowerConcat(before, transcript);
    LowerConcat(before + transcript, after);
    ContainsAnyWithin(Lower(transcript), AFFIRMATIVE_WORDS, Lower(before), Lower(after));
  }

  /** Classification is case-insensitive. */
  lemma CaseInsensitive(transcript: string)
    ensures KeywordIntent(Lower(transcript)) == KeywordIntent(transcript)
  {
    LowerIdempotent(transcript);
  }

  /** The keyword classifier ignores the history and only ever yields the three labels. */
  lemma KeywordIgnoresHistory(transcript: string, h1: seq<string>, h2: seq<string>)
    ensures ClassifyIntent(KeywordAgent, transcript, h1) == ClassifyIntent(KeywordAgent, transcript, h2)
    ensures IntentOf(KeywordAgent, transcript, h1) in {AGREES_TO_PAY, REFUSES_TO_PAY, UNCLEAR}
  {
  }

  /**
   * A failed completion, or a parsed object without an "intent" key, leaves the
   * planner at UNCLEAR, which asks the customer to repeat.
   */
  lemma LlmFallbackAsksToRepeat(complete: (string, seq<string>) -> LlmReply, transcript: string,
                                customer: map<string, string>, history: seq<string>)
    requires complete(transcript, history).Failed?
          || "intent" !in complete(transcript, history).json
    ensures GetNextAction(LlmAgent(complete), transcript, customer, history) == ReplyPlan(REPEAT_REQUEST, UNCLEAR)
  {
  }

  /** REQUESTS_INFO, END_CONVERSATION and every other label get the same request to repeat. */
  lemma OtherIntentsAskToRepeat(agent: DialogueAgent, transcript: string,
                                customer: map<string, string>, history: seq<string>)
    requires IntentOf(agent, transcript, history) !in {AGREES_TO_PAY, REFUSES_TO_PAY}
    ensures GetNextAction(agent, transcript, customer, history)
         == ReplyPlan(REPEAT_REQUEST, IntentOf(agent, transcript, history))
  {
  }

  /** Missing customer fields fall back to "there" and "your amount" in the payment SMS. */
  lemma AgreementSmsDefaults(agent: DialogueAgent, transcript: string, history: seq<string>)
    requires IntentOf(agent, transcript, history) == AGREES_TO_PAY
    ensures GetNextAction(agent, transcript, map[], history).payload[1] == SendSms(PaymentSms("there", "your amount"))
  {
  }
}
