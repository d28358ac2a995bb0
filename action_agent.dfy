/**
 * src/action_agent.py: the stateless dispatch from an action dictionary to the
 * SMS and lookup collaborator (mcp_service). The collaborator is abstract: its
 * answers are functions of the request, and every request made is recorded.
 */
module ActionAgent {
  import opened Wrappers
  import Dialogue

  /** A request made to the collaborator. */
  datatype ServiceCall = SmsRequest(to: string, message: string) | LookupRequest(phone: string)

  /** The phone-number details `lookup_number` reports. */
  type NumberInfo = map<string, string>

  /** What `mcp_service.send_sms` and `mcp_service.lookup_number` answer. */
  datatype McpService = McpService(
    sendSms: (string, string) -> bool,
    lookupNumber: string -> Option<NumberInfo>)

  /** `execute_action` returns a flag (`bool`) or a lookup result (`dict | None`). */
  datatype ActionResult = Flag(ok: bool) | Lookup(info: Option<NumberInfo>)

  /** A result together with the collaborator requests that produced it. */
  datatype Execution = Execution(result: ActionResult, calls: seq<ServiceCall>)

  const SEND_SMS := "SEND_SMS"
  const LOOKUP_NUMBER := "LOOKUP_NUMBER"
  const DEFAULT_MESSAGE := "You have a new message."

  /** `_send_sms`: one SMS request, and the collaborator's flag returned unchanged. */
  function SendSms(mcp: McpService, to: string, message: string): (e: Execution)
    ensures e.calls == [SmsRequest(to, message)]
    ensures e.result == Flag(mcp.sendSms(to, message))
  {
    Execution(Flag(mcp.sendSms(to, message)), [SmsRequest(to, message)])
  }

  /** `_lookup_number`: one lookup request, and the collaborator's answer returned unchanged. */
  function LookupNumber(mcp: McpService, phone: string): (e: Execution)
    ensures e.calls == [LookupRequest(phone)]
    ensures e.result == Lookup(mcp.lookupNumber(phone))
  {
    Execution(Lookup(mcp.lookupNumber(phone)), [LookupRequest(phone)])
  }

  /** `execute_action(action_plan, customer_phone)`, dispatching on the "type" entry. */
  function ExecuteAction(mcp: McpService, action: map<string, string>, phone: string): (e: Execution)
    ensures |e.calls| <= 1
    ensures e.calls == [] <==> ("type" !in action || action["type"] !in {SEND_SMS, LOOKUP_NUMBER})
    ensures e.calls == [] ==> e.result == Flag(false)
    ensures "type" in action && action["type"] == SEND_SMS ==>
      var message := if "message" in action then action["message"] else DEFAULT_MESSAGE;
      e.calls == [SmsRequest(phone, message)] && e.result == Flag(mcp.sendSms(phone, message))
    ensures "type" in action && action["type"] == LOOKUP_NUMBER ==>
      e.calls == [LookupRequest(phone)] && e.result == Lookup(mcp.lookupNumber(phone))
  {
    var kind := if "type" in action then Some(action["type"]) else None;
    if kind == Some(SEND_SMS) then
      SendSms(mcp, phone, if "message" in action then action["message"] else DEFAULT_MESSAGE)
    else if kind == Some(LOOKUP_NUMBER) then
      LookupNumber(mcp, phone)
    else
      Execution(Flag(false), [])
  }

  /** The dictionary form in which a plan entry reaches `execute_action`. */
  function ActionDict(a: Dialogue.Action): map<string, string> {
    match a
    case Reply(text) => map["type" := "REPLY", "text" := text]
    case SendSms(message) => map["type" := SEND_SMS, "message" := message]
    case EndCall(text) => map["type" := "END_CALL", "text" := text]
  }

  /**
   * Handing a plan entry to the executor: a SEND_SMS entry sends exactly its own
   * message to the given phone; REPLY and END_CALL entries reach no collaborator.
   */
  lemma PlanEntryDispatch(mcp: McpService, a: Dialogue.Action, phone: string)
    ensures a.SendSms? ==> ExecuteAction(mcp, ActionDict(a), phone).calls == [SmsRequest(phone, a.message)]
    ensures !a.SendSms? ==> ExecuteAction(mcp, ActionDict(a), phone) == Execution(Flag(false), [])
  {
  }

  /** A SEND_SMS entry without a message sends the default text. */
  lemma MissingMessageDefault(mcp: McpService, phone: string)
    ensures ExecuteAction(mcp, map["type" := SEND_SMS], phone).calls == [SmsRequest(phone, DEFAULT_MESSAGE)]
  {
  }
}
