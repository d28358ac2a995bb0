/**
 * server.py: the Vapi webhook dispatcher over the per-call conversation
 * histories, and the recording-upload handler. One event is handled at a time.
 * The customer table is the shared Database object; the SMS collaborator's
 * requests are recorded in `serviceCalls`.
 */
module VoiceBotServer {
  import opened Wrappers
  import opened Text
  import opened CustomerStore
  import opened Dialogue
  import opened ActionAgent

  /** The fields of the webhook body the handler reads. */
  datatype WebhookEvent = WebhookEvent(
    messageType: Option<string>,
    role: string,
    transcript: string,
    callId: string,
    customerNumber: string)

  /** The JSON body returned to Vapi: `{}`, `{"reply": …}` or `{"endCall": true, "endCallMessage": …}`. */
  datatype VapiResponse = NoReply | ReplyWith(reply: string) | EndCallWith(endCallMessage: string)

  /** The upload handler's success body. */
  datatype UploadReport = UploadReport(
    customerId: int,
    transcript: string,
    determinedIntent: string,
    finalDbStatus: string,
    actionPlan: ActionPlan,
    actionsExecuted: seq<Action>)

  /** An HTTPException's status code. */
  datatype HttpError = HttpError(statusCode: int)

  const CUSTOMER_NOT_FOUND_REPLY := "Sorry, I can't find your details in our system."
  const SMS_SENT := "SMS_SENT"
  const SUCCESSFUL := "SUCCESSFUL"
  const NEEDS_FOLLOW_UP := "NEEDS FOLLOW-UP"
  const UNCLEAR_STATUS := "UNCLEAR"

  predicate IsUserTranscript(event: WebhookEvent) {
    event.messageType == Some("transcript") && event.role == "user"
  }

  function UserLine(transcript: string): string { "User: " + transcript }

  function AgentLine(text: string): string { "Agent: " + text }

  /** A customer row as the dictionary the planner receives (the string-valued columns). */
  function CustomerData(c: Customer): map<string, string> {
    map["name" := c.name, "phone" := c.phone, "due_date" := c.dueDate,
        "loan_amount" := c.loanAmount, "call_status" := c.callStatus]
  }

  /** The entries of a SEQUENCE payload that run: all of them up to and including the first END_CALL. */
  function RunPrefix(payload: seq<Action>): (r: seq<Action>)
    ensures |r| <= |payload| && r == payload[..|r|]
    ensures forall k :: 0 <= k < |r| - 1 ==> !r[k].EndCall?
    ensures |r| < |payload| ==> 0 < |r| && r[|r| - 1].EndCall?
  {
    if payload == [] then []
    else if payload[0].EndCall? then [payload[0]]
    else [payload[0]] + RunPrefix(payload[1..])
  }

  /** The entries a plan executes: the run prefix of a SEQUENCE, or the plan's single action. */
  function Performed(plan: ActionPlan): seq<Action> {
    match plan
    case SequencePlan(payload, _) => RunPrefix(payload)
    case EndCallPlan(text, _) => [EndCall(text)]
    case ReplyPlan(text, _) => [Reply(text)]
  }

  /** The response after one more action: REPLY sets "reply", END_CALL replaces the whole body. */
  function ResponseStep(response: VapiResponse, a: Action): VapiResponse {
    match a
    case Reply(text) => ReplyWith(text)
    case SendSms(_) => response
    case EndCall(text) => EndCallWith(text)
  }

  /** The response after running the actions in order, starting from `{}`. */
  function ResponseAfter(acts: seq<Action>): VapiResponse {
    if acts == [] then NoReply else ResponseStep(ResponseAfter(acts[..|acts| - 1]), acts[|acts| - 1])
  }

  /** The history line an action appends: REPLY and END_CALL texts, as "Agent: " lines. */
  function AgentLinesOf(a: Action): seq<string> {
    match a
    case Reply(text) => [AgentLine(text)]
    case SendSms(_) => []
    case EndCall(text) => [AgentLine(text)]
  }

  function AgentLines(acts: seq<Action>): seq<string> {
    if acts == [] then [] else AgentLines(acts[..|acts| - 1]) + AgentLinesOf(acts[|acts| - 1])
  }

  /** The collaborator request an action makes when run for the caller `phone`. */
  function SmsCallsOf(a: Action, phone: string): seq<ServiceCall> {
    if a.SendSms? then [SmsRequest(phone, a.message)] else []
  }

  function SmsCalls(acts: seq<Action>, phone: string): seq<ServiceCall> {
    if acts == [] then [] else SmsCalls(acts[..|acts| - 1], phone) + SmsCallsOf(acts[|acts| - 1], phone)
  }

  /** The table after an action: a SEND_SMS logs "SMS_SENT" with its message as notes for customer `id`. */
  function SmsLogStep(rows: Rows, id: int, a: Action): Rows {
    if a.SendSms? then Logged(rows, id, SMS_SENT, a.message) else rows
  }

  function SmsLogged(rows: Rows, id: int, acts: seq<Action>): Rows {
    if acts == [] then rows else SmsLogStep(SmsLogged(rows, id, acts[..|acts| - 1]), id, acts[|acts| - 1])
  }

  lemma UpdateTwice<K, V>(m: map<K, V>, k: K, a: V, b: V)
    ensures m[k := a][k := b] == m[k := b]
  {
  }

  /** A plan with a single REPLY or END_CALL performs just that action. */
  lemma SingleAction(a: Action, phone: string, rows: Rows, id: int)
    requires !a.SendSms?
    ensures ResponseAfter([a]) == ResponseStep(NoReply, a)
    ensures AgentLines([a]) == [AgentLine(a.text)]
    ensures SmsCalls([a], phone) == [] && SmsLogged(rows, id, [a]) == rows
  {
    Extend([], a, phone, rows, id);
  }

  lemma SmsOnlyExtend(acts: seq<Action>, a: Action)
    ensures SmsOnly(acts + [a]) == SmsOnly(acts) + if a.SendSms? then [a] else []
  {
    assert (acts + [a])[..|acts|] == acts;
  }

  /** Each of the effects above extends by one action at a time. */
  lemma Extend(acts: seq<Action>, a: Action, phone: string, rows: Rows, id: int)
    ensures ResponseAfter(acts + [a]) == ResponseStep(ResponseAfter(acts), a)
    ensures AgentLines(acts + [a]) == AgentLines(acts) + AgentLinesOf(a)
    ensures SmsCalls(acts + [a], phone) == SmsCalls(acts, phone) + SmsCallsOf(a, phone)
    ensures SmsLogged(rows, id, acts + [a]) == SmsLogStep(SmsLogged(rows, id, acts), id, a)
  {
    assert (acts + [a])[..|acts|] == acts;
  }

  /** The calls after one more action, behind whatever was already recorded. */
  lemma SmsCallsExtend(before: seq<ServiceCall>, acts: seq<Action>, a: Action, phone: string)
    ensures before + SmsCalls(acts, phone) + SmsCallsOf(a, phone) == before + SmsCalls(acts + [a], phone)
  {
    assert (acts + [a])[..|acts|] == acts;
  }

  /** The filter over one more entry of a list. */
  lemma SmsOnlyPrefix(acts: seq<Action>, i: int)
    requires 0 <= i < |acts|
    ensures SmsOnly(acts[..i + 1]) == SmsOnly(acts[..i]) + if acts[i].SendSms? then [acts[i]] else []
  {
    assert acts[..i + 1] == acts[..i] + [acts[i]];
    SmsOnlyExtend(acts[..i], acts[i]);
  }

  /** The effects of one more action, behind the history and the calls that were there before. */
  lemma ExtendBehind(history: seq<string>, acts: seq<Action>, a: Action, phone: string, rows: Rows, id: int)
    ensures ResponseAfter(acts + [a]) == ResponseStep(ResponseAfter(acts), a)
    ensures history + AgentLines(acts + [a]) == history + AgentLines(acts) + AgentLinesOf(a)
    ensures SmsLogged(rows, id, acts + [a]) == SmsLogStep(SmsLogged(rows, id, acts), id, a)
  {
    Extend(acts, a, phone, rows, id);
  }

  /** The SEND_SMS entries of a list, in order. */
  function SmsOnly(acts: seq<Action>): seq<Action> {
    if acts == [] then []
    else SmsOnly(acts[..|acts| - 1]) + if acts[|acts| - 1].SendSms? then [acts[|acts| - 1]] else []
  }

  /** The filter keeps exactly the SEND_SMS entries, none of them dropped or invented. */
  lemma {:induction false} SmsOnlyMembers(acts: seq<Action>, a: Action)
    ensures a in SmsOnly(acts) <==> a in acts && a.SendSms?
    ensures |SmsOnly(acts)| <= |acts|
  {
    if acts != [] {
      var init, last := acts[..|acts| - 1], acts[|acts| - 1];
      SmsOnlyMembers(init, a);
      assert acts == init + [last];
    }
  }

  /** `actions_executed` of the upload handler: the SEND_SMS entries of a SEQUENCE payload, otherwise none. */
  function SmsActions(plan: ActionPlan): seq<Action> {
    if plan.SequencePlan? then SmsOnly(plan.payload) else []
  }

  /** The status the upload handler stores for an intent. */
  function UploadStatus(intent: string): (r: string)
    ensures r in {SUCCESSFUL, NEEDS_FOLLOW_UP, UNCLEAR_STATUS}
    ensures r == SUCCESSFUL <==> intent == AGREES_TO_PAY
    ensures r == NEEDS_FOLLOW_UP <==> intent == REFUSES_TO_PAY
  {
    if intent == AGREES_TO_PAY then SUCCESSFUL
    else if intent == REFUSES_TO_PAY then NEEDS_FOLLOW_UP
    else UNCLEAR_STATUS
  }

  /** The upload handler's test for a failed transcription: one of two literal markers in the text. */
  predicate TranscriptionFailed(transcript: string) {
    Contains(transcript, "[Transcription failed]") || Contains(transcript, "[Google API error]")
  }

  /** The run stops at the first END_CALL and takes it along. */
  lemma {:induction false} RunPrefixStopsAt(payload: seq<Action>, i: int)
    requires 0 <= i < |payload| && payload[i].EndCall?
    requires forall k :: 0 <= k < i ==> !payload[k].EndCall?
    ensures RunPrefix(payload) == payload[..i + 1]
  {
    if i > 0 {
      RunPrefixStopsAt(payload[1..], i - 1);
      assert [payload[0]] + payload[1..][..i] == payload[..i + 1];
    }
  }

  /** Without an END_CALL the whole payload runs. */
  lemma {:induction false} RunPrefixWhole(payload: seq<Action>)
    requires forall k :: 0 <= k < |payload| ==> !payload[k].EndCall?
    ensures RunPrefix(payload) == payload
  {
    if payload != [] {
      RunPrefixWhole(payload[1..]);
      assert [payload[0]] + payload[1..] == payload;
    }
  }

  /** A run that reaches an END_CALL answers with that END_CALL's text, whatever came before. */
  lemma {:induction false} EndCallEndsTurn(payload: seq<Action>, i: int)
    requires 0 <= i < |payload| && payload[i].EndCall?
    requires forall k :: 0 <= k < i ==> !payload[k].EndCall?
    ensures RunPrefix(payload) == payload[..i + 1]
    ensures ResponseAfter(RunPrefix(payload)) == EndCallWith(payload[i].text)
  {
    RunPrefixStopsAt(payload, i);
    assert payload[..i + 1] == payload[..i] + [payload[i]];
    Extend(payload[..i], payload[i], "", map[], 0);
  }

  /**
   * An agreeing turn for a known customer: the agreement reply and the goodbye
   * are both spoken into the history (two agent lines), the goodbye replaces the
   * reply as the response, the payment SMS goes to the caller, and the customer
   * is logged as "SMS_SENT" with that SMS as notes.
   */
  lemma AgreementTurn(agent: DialogueAgent, transcript: string, c: Customer, history: seq<string>,
                      phone: string, rows: Rows)
    requires IntentOf(agent, transcript, history) == AGREES_TO_PAY
    ensures var done := Performed(GetNextAction(agent, transcript, CustomerData(c), history));
      && done == [Reply(AgreeReply(c.name)), SendSms(PaymentSms(c.name, c.loanAmount)), EndCall(LINK_SENT_GOODBYE)]
      && ResponseAfter(done) == EndCallWith(LINK_SENT_GOODBYE)
      && AgentLines(done) == [AgentLine(AgreeReply(c.name)), AgentLine(LINK_SENT_GOODBYE)]
      && SmsCalls(done, phone) == [SmsRequest(phone, PaymentSms(c.name, c.loanAmount))]
      && SmsLogged(rows, c.id, done) == Logged(rows, c.id, SMS_SENT, PaymentSms(c.name, c.loanAmount))
  {
    AgreementPayload(agent, transcript, c, history);
    ReplySmsEndRuns(AgreeReply(c.name), PaymentSms(c.name, c.loanAmount), LINK_SENT_GOODBYE);
    ReplySmsEndEffects(AgreeReply(c.name), PaymentSms(c.name, c.loanAmount), LINK_SENT_GOODBYE, phone, rows, c.id);
  }

  /** The agreement plan built for a stored customer, with the customer's own name and amount. */
  lemma AgreementPayload(agent: DialogueAgent, transcript: string, c: Customer, history: seq<string>)
    requires IntentOf(agent, transcript, history) == AGREES_TO_PAY
    ensures GetNextAction(agent, transcript, CustomerData(c), history).payload
      == [Reply(AgreeReply(c.name)), SendSms(PaymentSms(c.name, c.loanAmount)), EndCall(LINK_SENT_GOODBYE)]
  {
    var data := CustomerData(c);
    assert Get(data, "name", "there") == c.name && Get(data, "loan_amount", "your amount") == c.loanAmount;
  }

  /** A reply, an SMS and a goodbye all run: the goodbye is the first END_CALL and the last entry. */
  lemma ReplySmsEndRuns(reply: string, message: string, goodbye: string)
    ensures RunPrefix([Reply(reply), SendSms(message), EndCall(goodbye)]) == [Reply(reply), SendSms(message), EndCall(goodbye)]
  {
    var done := [Reply(reply), SendSms(message), EndCall(goodbye)];
    EndCallEndsTurn(done, 2);
    assert done[..3] == done;
  }

  /** A reply, an SMS and a goodbye: the goodbye is the response, two agent lines, one SMS, one log entry. */
  lemma ReplySmsEndEffects(reply: string, message: string, goodbye: string, phone: string, rows: Rows, id: int)
    ensures var done := [Reply(reply), SendSms(message), EndCall(goodbye)];
      && ResponseAfter(done) == EndCallWith(goodbye)
      && AgentLines(done) == [AgentLine(reply), AgentLine(goodbye)]
      && SmsCalls(done, phone) == [SmsRequest(phone, message)]
      && SmsLogged(rows, id, done) == Logged(rows, id, SMS_SENT, message)
  {
    var done := [Reply(reply), SendSms(message), EndCall(goodbye)];
    Extend([], done[0], phone, rows, id);
    Extend([done[0]], done[1], phone, rows, id);
    assert [done[0]] + [done[1]] == done[..2];
    Extend(done[..2], done[2], phone, rows, id);
    assert done[..2] + [done[2]] == done;
  }

  /** A refusing turn: one goodbye line naming the customer ends the call; no SMS and no table change. */
  lemma RefusalTurn(agent: DialogueAgent, transcript: string, c: Customer, history: seq<string>,
                    phone: string, rows: Rows)
    requires IntentOf(agent, transcript, history) == REFUSES_TO_PAY
    ensures var done := Performed(GetNextAction(agent, transcript, CustomerData(c), history));
      && done == [EndCall(RefusalGoodbye(c.name))]
      && ResponseAfter(done) == EndCallWith(RefusalGoodbye(c.name))
      && AgentLines(done) == [AgentLine(RefusalGoodbye(c.name))]
      && SmsCalls(done, phone) == [] && SmsLogged(rows, c.id, done) == rows
  {
    SingleAction(EndCall(RefusalGoodbye(c.name)), phone, rows, c.id);
  }

  /** Any other intent: the request to repeat is the reply and the one agent line; no SMS and no table change. */
  lemma OtherTurn(agent: DialogueAgent, transcript: string, c: Customer, history: seq<string>,
                  phone: string, rows: Rows)
    requires IntentOf(agent, transcript, history) !in {AGREES_TO_PAY, REFUSES_TO_PAY}
    ensures var done := Performed(GetNextAction(agent, transcript, CustomerData(c), history));
      && done == [Reply(REPEAT_REQUEST)]
      && ResponseAfter(done) == ReplyWith(REPEAT_REQUEST)
      && AgentLines(done) == [AgentLine(REPEAT_REQUEST)]
      && SmsCalls(done, phone) == [] && SmsLogged(rows, c.id, done) == rows
  {
    SingleAction(Reply(REPEAT_REQUEST), phone, rows, c.id);
  }

  /** The upload path executes the payment SMS exactly when the intent is an agreement. */
  lemma UploadSmsActions(agent: DialogueAgent, transcript: string, c: Customer)
    ensures var plan := GetNextAction(agent, transcript, CustomerData(c), []);
      SmsActions(plan) == if plan.intent == AGREES_TO_PAY then [SendSms(PaymentSms(c.name, c.loanAmount))] else []
  {
    var plan := GetNextAction(agent, transcript, CustomerData(c), []);
    if plan.intent == AGREES_TO_PAY {
      var p := plan.payload;
      assert p[..1] == [p[0]] && p[..2] == p[..1] + [p[1]] && p == p[..2] + [p[2]];
      SmsOnlyExtend([], p[0]);
      assert [] + [p[0]] == p[..1];
      SmsOnlyExtend(p[..1], p[1]);
      SmsOnlyExtend(p[..2], p[2]);
    }
  }

  /** With the keyword classifier, an upload is stored as SUCCESSFUL exactly when an affirmative word occurs. */
  lemma KeywordUploadStatus(transcript: string)
    ensures UploadStatus(IntentOf(KeywordAgent, transcript, [])) == SUCCESSFUL
      <==> ContainsAny(Lower(transcript), AFFIRMATIVE_WORDS)
    ensures UploadStatus(IntentOf(KeywordAgent, transcript, [])) == NEEDS_FOLLOW_UP
      <==> !ContainsAny(Lower(transcript), AFFIRMATIVE_WORDS) && ContainsAny(Lower(transcript), REFUSAL_WORDS)
  {
    assert map["intent" := KeywordIntent(transcript)]["intent"] == KeywordIntent(transcript);
  }

  /** No character of `s` is an opening bracket. */
  predicate NoBracket(s: string) {
    forall k :: 0 <= k < |s| ==> s[k] != '['
  }

  /** The only '[' of a marker "[…" + `rest` with `rest` bracket-free is the first character. */
  lemma OnlyLeadingBracket(hay: string, lead: string, rest: string, needle: string)
    requires hay == lead + rest && |lead| > 0 && NoBracket(lead[1..]) && NoBracket(rest)
    requires |needle| > 0 && needle[0] == '['
    ensures forall i :: 0 < i ==> !OccursAt(hay, needle, i)
  {
    forall i | 0 < i < |hay|
      ensures hay[i] != '['
    {
      if i < |lead| {
        assert lead[1..][i - 1] == hay[i];
      } else {
        assert rest[i - |lead|] == hay[i];
      }
    }
  }

  /**
   * The transcription service reports an unexpected error as "[Transcription failed: <e>]".
   * The upload handler tests for the literal "[Transcription failed]", so such a
   * report is taken for a transcript and classified.
   */
  lemma TranscriptionFailureNotCaught(e: string)
    requires NoBracket(e)
    ensures !TranscriptionFailed("[Transcription failed: " + e + "]")
  {
    var lead := "[Transcription failed: ";
    var hay := lead + e + "]";
    assert hay == lead + (e + "]");
    assert NoBracket(e + "]") by {
      forall k | 0 <= k < |e + "]"| ensures (e + "]")[k] != '[' {
        if k < |e| { assert (e + "]")[k] == e[k]; }
      }
    }
    assert NoBracket(lead[1..]);
    OnlyLeadingBracket(hay, lead, e + "]", "[Transcription failed]");
    OnlyLeadingBracket(hay, lead, e + "]", "[Google API error]");
    assert hay[21] == ':';
    assert !OccursAt(hay, "[Transcription failed]", 0);
    assert hay[2] == 'r';
    assert !OccursAt(hay, "[Google API error]", 0);
    ContainsIff(hay, "[Transcription failed]");
    ContainsIff(hay, "[Google API error]");
  }

  /**
   * The service reports a Groq API error as "[Groq API error: <code> - <message>]";
   * that report, too, passes the upload handler's check.
   */
  lemma GroqErrorNotCaught(code: string, message: string)
    requires NoBracket(code) && NoBracket(message)
    ensures !TranscriptionFailed("[Groq API error: " + code + " - " + message + "]")
  {
    var lead := "[Groq API error: ";
    var rest := code + " - " + message + "]";
    var hay := lead + code + " - " + message + "]";
    assert hay == lead + rest;
    assert NoBracket(rest) by {
      forall k | 0 <= k < |rest| ensures rest[k] != '[' {
        if k < |code| { assert rest[k] == code[k]; }
        else if k < |code| + 3 { assert rest[k] == " - "[k - |code|]; }
        else if k < |code| + 3 + |message| { assert rest[k] == message[k - |code| - 3]; }
      }
    }
    assert NoBracket(lead[1..]);
    OnlyLeadingBracket(hay, lead, rest, "[Transcription failed]");
    OnlyLeadingBracket(hay, lead, rest, "[Google API error]");
    assert hay[1] == 'G' && hay[2] == 'r';
    assert !OccursAt(hay, "[Transcription failed]", 0);
    assert !OccursAt(hay, "[Google API error]", 0);
    ContainsIff(hay, "[Transcription failed]");
    ContainsIff(hay, "[Google API error]");
  }

  class Server {
    const db: Database
    const agent: DialogueAgent
    const mcp: McpService
    /** `conversation_histories`: call id to the lines of that call so far. */
    var conversationHistories: map<string, seq<string>>
    /** Every request made to the SMS/lookup collaborator, oldest first. */
    var serviceCalls: seq<ServiceCall>

    ghost predicate Valid()
      reads this, db
    {
      db.Valid()
    }

    constructor (db: Database, agent: DialogueAgent, mcp: McpService)
      requires db.Valid()
      ensures Valid()
      ensures this.db == db && this.agent == agent && this.mcp == mcp
      ensures conversationHistories == map[] && serviceCalls == []
    {
      this.db := db;
      this.agent := agent;
      this.mcp := mcp;
      conversationHistories := map[];
      serviceCalls := [];
    }

    /** The history of a call; a call without one reads as empty, as the defaultdict does. */
    function History(callId: string): seq<string>
      reads this
    {
      if callId in conversationHistories then conversationHistories[callId] else []
    }

    /** `handle_vapi_webhook`: user transcripts are answered, `call-end` drops the call's history, anything else is ignored. */
    method HandleWebhook(event: WebhookEvent) returns (response: VapiResponse)
      requires Valid()
      modifies this, db
      ensures Valid() && db.nextId == old(db.nextId)
      ensures !IsUserTranscript(event) ==>
        && response == NoReply
        && db.rows == old(db.rows) && serviceCalls == old(serviceCalls)
        && conversationHistories ==
             if event.messageType == Some("call-end") then old(conversationHistories) - {event.callId}
             else old(conversationHistories)
      ensures IsUserTranscript(event) ==>
        TranscriptHandled(old(conversationHistories), old(serviceCalls), old(db.rows), old(db.nextId),
                          event.callId, event.transcript, event.customerNumber, response)
    {
      if IsUserTranscript(event) {
        response := HandleTranscript(event.callId, event.transcript, event.customerNumber);
      } else if event.messageType == Some("call-end") {
        if event.callId in conversationHistories {
          conversationHistories := conversationHistories - {event.callId};
        } else {
          assert conversationHistories - {event.callId} == conversationHistories;
        }
        response := NoReply;
      } else {
        response := NoReply;
      }
    }

    /**
     * What answering one user transcript does: for a caller whose number matches
     * no customer, the fixed apology and nothing else; otherwise the "User: " line
     * is appended, the plan is made on the history including it, and the actions
     * the plan performs determine the response, the further history lines, the
     * SMS requests and the "SMS_SENT" log entries.
     */
    ghost predicate TranscriptHandled(histories: map<string, seq<string>>, calls: seq<ServiceCall>,
                                      rows: Rows, nextId: int, callId: string, transcript: string,
                                      phone: string, response: VapiResponse)
      reads this, db
      requires WellFormed(rows, nextId)
    {
      var matches := WithPhone(rows, nextId, phone);
      if |matches| == 0 then
        && response == ReplyWith(CUSTOMER_NOT_FOUND_REPLY)
        && db.rows == rows && serviceCalls == calls && conversationHistories == histories
      else
        var c := matches[0];
        var history := (if callId in histories then histories[callId] else []) + [UserLine(transcript)];
        var done := Performed(GetNextAction(agent, transcript, CustomerData(c), history));
        && response == ResponseAfter(done)
        && conversationHistories == histories[callId := history + AgentLines(done)]
        && serviceCalls == calls + SmsCalls(done, phone)
        && db.rows == SmsLogged(rows, c.id, done)
    }

    /** The `transcript` / `user` branch of `handle_vapi_webhook`. */
    method HandleTranscript(callId: string, transcript: string, phone: string) returns (response: VapiResponse)
      requires Valid()
      modifies this, db
      ensures Valid() && db.nextId == old(db.nextId)
      ensures TranscriptHandled(old(conversationHistories), old(serviceCalls), old(db.rows), old(db.nextId),
                                callId, transcript, phone, response)
    {
      ghost var histories0, calls0, rows0 := conversationHistories, serviceCalls, db.rows;
      var found := db.GetCustomerByPhone(phone);
      ghost var matches := WithPhone(rows0, db.nextId, phone);
      if found.None? {
        return ReplyWith(CUSTOMER_NOT_FOUND_REPLY);
      }
      var customer := found.value;
      assert customer == matches[0];
      var history := History(callId) + [UserLine(transcript)];
      conversationHistories := conversationHistories[callId := history];
      var plan := GetNextAction(agent, transcript, CustomerData(customer), history);
      ghost var done := Performed(plan);
      response := RunPlan(plan, callId, phone, customer.id);
      UpdateTwice(histories0, callId, history, history + AgentLines(done));
    }

    /** The actions of a plan, run in order for the caller's call. */
    method RunPlan(plan: ActionPlan, callId: string, phone: string, customerId: int)
      returns (response: VapiResponse)
      requires Valid() && callId in conversationHistories
      modifies this, db
      ensures Valid() && db.nextId == old(db.nextId)
      ensures response == ResponseAfter(Performed(plan))
      ensures conversationHistories ==
        old(conversationHistories)[callId := old(conversationHistories[callId]) + AgentLines(Performed(plan))]
      ensures serviceCalls == old(serviceCalls) + SmsCalls(Performed(plan), phone)
      ensures db.rows == SmsLogged(old(db.rows), customerId, Performed(plan))
    {
      match plan {
        case SequencePlan(payload, _) =>
          response := RunSequence(payload, callId, phone, customerId);
        case EndCallPlan(text, _) =>
          response := RunSingle(EndCall(text), callId, phone, customerId);
        case ReplyPlan(text, _) =>
          response := RunSingle(Reply(text), callId, phone, customerId);
      }
    }

    /** The END_CALL and REPLY plans: their one action, performed as a one-entry run. */
    method RunSingle(action: Action, callId: string, phone: string, customerId: int)
      returns (response: VapiResponse)
      requires Valid() && callId in conversationHistories && !action.SendSms?
      modifies this, db
      ensures Valid() && db.nextId == old(db.nextId)
      ensures response == ResponseAfter([action])
      ensures conversationHistories ==
        old(conversationHistories)[callId := old(conversationHistories[callId]) + AgentLines([action])]
      ensures serviceCalls == old(serviceCalls) + SmsCalls([action], phone)
      ensures db.rows == SmsLogged(old(db.rows), customerId, [action])
    {
      SingleAction(action, phone, db.rows, customerId);
      assert serviceCalls + [] == serviceCalls;
      response := RunAction(NoReply, action, callId, phone, customerId);
    }

    /** The SEQUENCE branch: run the payload in order, stopping after the first END_CALL. */
    method RunSequence(payload: seq<Action>, callId: string, phone: string, customerId: int)
      returns (response: VapiResponse)
      requires Valid() && callId in conversationHistories
      modifies this, db
      ensures Valid() && db.nextId == old(db.nextId)
      ensures response == ResponseAfter(RunPrefix(payload))
      ensures conversationHistories ==
        old(conversationHistories)[callId := old(conversationHistories[callId]) + AgentLines(RunPrefix(payload))]
      ensures serviceCalls == old(serviceCalls) + SmsCalls(RunPrefix(payload), phone)
      ensures db.rows == SmsLogged(old(db.rows), customerId, RunPrefix(payload))
    {
      ghost var histories0, history0 := conversationHistories, conversationHistories[callId];
      ghost var calls0, rows0, nextId0 := serviceCalls, db.rows, db.nextId;
      response := NoReply;
      var i := 0;
      ghost var done: seq<Action> := [];
      assert history0 + AgentLines(done) == history0;
      assert histories0[callId := history0 + AgentLines(done)] == histories0;
      while i < |payload|
        invariant 0 <= i <= |payload| && done == payload[..i]
        invariant forall k :: 0 <= k < i ==> !payload[k].EndCall?
        invariant db.Valid() && db.nextId == nextId0
        invariant response == ResponseAfter(done)
        invariant conversationHistories == histories0[callId := history0 + AgentLines(done)]
        invariant serviceCalls == calls0 + SmsCalls(done, phone)
        invariant db.rows == SmsLogged(rows0, customerId, done)
        decreases |payload| - i
      {
        var action := payload[i];
        assert payload[..i + 1] == done + [action];
        ExtendBehind(history0, done, action, phone, rows0, customerId);
        SmsCallsExtend(calls0, done, action, phone);
        response := RunAction(response, action, callId, phone, customerId);
        done := done + [action];
        if action.EndCall? {
          RunPrefixStopsAt(payload, i);
          break;
        }
        i := i + 1;
      }
      if i == |payload| {
        assert payload[..i] == payload;
        RunPrefixWhole(payload);
      }
    }

    /** One entry of the SEQUENCE loop's body. */
    method RunAction(response: VapiResponse, action: Action, callId: string, phone: string, customerId: int)
      returns (next: VapiResponse)
      requires Valid() && callId in conversationHistories
      modifies this, db
      ensures Valid() && db.nextId == old(db.nextId)
      ensures next == ResponseStep(response, action)
      ensures conversationHistories ==
        old(conversationHistories)[callId := old(conversationHistories[callId]) + AgentLinesOf(action)]
      ensures serviceCalls == old(serviceCalls) + SmsCallsOf(action, phone)
      ensures db.rows == SmsLogStep(old(db.rows), customerId, action)
    {
      next := response;
      match action {
        case Reply(text) =>
          next := ReplyWith(text);
          conversationHistories := conversationHistories[callId := conversationHistories[callId] + [AgentLine(text)]];
        case SendSms(message) =>
          var execution := ExecuteAction(mcp, ActionDict(action), phone);
          serviceCalls := serviceCalls + execution.calls;
          db.LogCallOutcome(customerId, SMS_SENT, message);
          assert conversationHistories[callId] + [] == conversationHistories[callId];
        case EndCall(text) =>
          next := EndCallWith(text);
          conversationHistories := conversationHistories[callId := conversationHistories[callId] + [AgentLine(text)]];
      }
    }

    /** `upload_recording`, given the text the transcription service returned for the recording. */
    method UploadRecording(customerId: int, transcript: string) returns (r: Result<UploadReport, HttpError>)
      requires Valid()
      modifies this, db
      ensures Valid() && db.nextId == old(db.nextId)
      ensures conversationHistories == old(conversationHistories)
      ensures customerId !in old(db.rows) ==>
        r == Err(HttpError(404)) && db.rows == old(db.rows) && serviceCalls == old(serviceCalls)
      ensures customerId in old(db.rows) && TranscriptionFailed(transcript) ==>
        r == Err(HttpError(500)) && db.rows == old(db.rows) && serviceCalls == old(serviceCalls)
      ensures customerId in old(db.rows) && !TranscriptionFailed(transcript) ==>
        var c := old(db.rows)[customerId];
        var plan := GetNextAction(agent, transcript, CustomerData(c), []);
        var status := UploadStatus(plan.intent);
        && r == Ok(UploadReport(customerId, transcript, plan.intent, status, plan, SmsActions(plan)))
        && db.rows == Logged(old(db.rows), customerId, status, transcript)
        && serviceCalls == old(serviceCalls) + SmsCalls(SmsActions(plan), c.phone)
    {
      var found := db.FetchCustomerById(customerId);
      if found.None? {
        return Err(HttpError(404));
      }
      var customer := found.value;
      if TranscriptionFailed(transcript) {
        return Err(HttpError(500));
      }
      var plan := GetNextAction(agent, transcript, CustomerData(customer), []);
      var intent := plan.intent;
      var finalStatus := UploadStatus(intent);
      db.LogCallOutcome(customerId, finalStatus, transcript);
      var executed: seq<Action> := [];
      if plan.SequencePlan? {
        executed := SendSmsEntries(plan.payload, customer.phone);
      }
      r := Ok(UploadReport(customerId, transcript, intent, finalStatus, plan, executed));
    }

    /** One SEND_SMS entry handed to the executor for the caller `phone`. */
    method SendEntry(action: Action, phone: string)
      requires action.SendSms?
      modifies this
      ensures serviceCalls == old(serviceCalls) + SmsCallsOf(action, phone)
      ensures conversationHistories == old(conversationHistories)
    {
      PlanEntryDispatch(mcp, action, phone);
      var execution := ExecuteAction(mcp, ActionDict(action), phone);
      serviceCalls := serviceCalls + execution.calls;
    }

    /** The loop of `upload_recording`: every SEND_SMS entry is executed and collected, in order. */
    method SendSmsEntries(payload: seq<Action>, phone: string) returns (executed: seq<Action>)
      modifies this
      ensures executed == SmsOnly(payload)
      ensures serviceCalls == old(serviceCalls) + SmsCalls(executed, phone)
      ensures conversationHistories == old(conversationHistories)
    {
      ghost var calls0 := serviceCalls;
      executed := [];
      var i := 0;
      while i < |payload|
        invariant 0 <= i <= |payload|
        invariant executed == SmsOnly(payload[..i])
        invariant serviceCalls == calls0 + SmsCalls(executed, phone)
        invariant conversationHistories == old(conversationHistories)
      {
        var action := payload[i];
        SmsOnlyPrefix(payload, i);
        if action.SendSms? {
          SendEntry(action, phone);
          SmsCallsExtend(calls0, executed, action, phone);
          executed := executed + [action];
        }
        i := i + 1;
      }
      assert payload[..i] == payload;
    }
  }
}
