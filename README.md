# Loan-collection voice bot: dialogue, webhook and outcome core

This project models the decision and bookkeeping core of a loan-collection voice bot.

- The **dialogue agent** classifies what a customer said and plans the bot's next step. The step is a reply, a hang-up, or a reply, a payment SMS and a hang-up in that order.
- The **webhook dispatcher** keeps a conversation history per call. It runs the planned actions in order, stops at the first END_CALL, and logs each SMS in the customer table.
- The **recording-upload handler** classifies an uploaded transcript and stores the outcome.
- The **action executor** dispatches an action dictionary to the SMS and number-lookup service.
- The **outcome agent** sorts a transcript into SUCCESSFUL, NEED FOLLOW UP or FAILED and writes that to the customer's row.
- The **older HTTP server** has its own rule-based classifier. It also has rules for the note a call request appends and for the customer an upload is charged to.
- The **customer table** is held in memory: a map from id to row, plus the AUTOINCREMENT counter.

The language-model completions and the SMS/lookup service are parameters (oracle functions). Every request made to the service is recorded in a log, so contracts can say which requests were made, in which order, and to which number.

Modules, one per source file: `Text` (lower-casing, substring search, stripping, word characters) and `Wrappers` (Option, Result) are shared helpers; `CustomerStore` is src/database.py; `Dialogue` is src/dialogue_agent.py; `ActionAgent` is src/action_agent.py; `VoiceBotServer` is server.py; `Outcomes` is src/outcome_agent.py; `LegacyServer` is src/server.py.

Behaviour worth knowing, as the code has it:

- On an agreement, the END_CALL entry replaces the whole webhook response, so the acknowledgement reply is never sent back. The answer is `{endCall, endCallMessage}` with the goodbye, and the history grows by three lines: the user line and two agent lines (`VoiceBotServer.AgreementTurn`).
- The schema gives `notes` no default, so a row inserted without notes holds NULL (`None`). Only seeded rows get an explicit empty string.
- The upload handler tests the transcript for the literal markers "[Transcription failed]" and "[Google API error]". The transcription service (src/services/transcription_service.py:92,96) reports failures as "[Transcription failed: …]" and "[Groq API error: … - …]", and neither contains a marker. The check is modelled as written. `TranscriptionFailureNotCaught` and `GroqErrorNotCaught` prove that such reports are taken for transcripts.

## Model

| member | source | states |
|---|---|---|
| CustomerStore.Database.constructor | src/database.py:12-26 | a freshly created table is empty and its id counter starts at 1 |
| CustomerStore.Database.Insert | src/database.py:15-22 | a new row gets the next id, call_status defaults to 'Pending' and notes to NULL; no other row changes |
| CustomerStore.Database.Seed | src/database.py:28-43 | the batch is inserted in order under consecutive new ids, each as 'Pending' with empty notes; existing rows are untouched |
| CustomerStore.Where | src/database.py:45-47 | a filtered scan holds exactly the rows the filter accepts in the id range, in strictly ascending id order |
| CustomerStore.Database.FetchDueCustomers | src/database.py:45-47 | exactly the rows whose call_status is 'Pending', each once, in ascending id order |
| CustomerStore.Database.FetchAllCustomers | server.py:36-41 | every row exactly once (length equals the table size), in ascending id order |
| CustomerStore.AllRowsListed | server.py:36-41 | a duplicate-free listing that holds every row has as many entries as the table |
| CustomerStore.Database.FetchCustomerById | server.py:144-147 | the row with that id if there is one, otherwise nothing |
| CustomerStore.Database.GetCustomerByPhone | server.py:82-87 | nothing iff no row has that phone; otherwise a row with that phone and no lower-id row has it |
| CustomerStore.Logged | src/database.py:49-54 | the UPDATE changes only call_status and notes of the given id; other rows and an absent id leave the table as it was |
| CustomerStore.Database.LogCallOutcome | src/database.py:49-54 | the table becomes `Logged` of the old table, so it keeps its ids and counter |
| CustomerStore.LoggedLeavesDue | src/database.py:45-71 | logging a non-'Pending' status takes exactly that customer off the due list and keeps the rest in order |
| Dialogue.KeywordIntentMeaning | src/dialogue_agent.py:23-31 | AGREES_TO_PAY iff an affirmative word occurs in the lower-cased text; REFUSES_TO_PAY iff none does and a refusal word does; otherwise UNCLEAR |
| Dialogue.ClassifyIntent | src/dialogue_agent.py:17-65 | without the model, the keyword intent; a failed completion or parse yields {"intent": "UNCLEAR"} |
| Dialogue.GetNextAction | src/dialogue_agent.py:67-125 | the plan carries the classified intent; SEQUENCE iff agreement, with exactly REPLY, SEND_SMS, END_CALL whose SMS names the customer and amount; END_CALL iff refusal, naming the customer and ending "Goodbye."; otherwise the repeat request |
| Dialogue.PaymentSmsMentions | src/dialogue_agent.py:97-100 | the payment SMS contains the customer name and the loan amount |
| Dialogue.RefusalGoodbyeMentions | src/dialogue_agent.py:108-114 | the refusal goodbye contains the customer name and ends with "Goodbye." |
| Dialogue.LinkSentGoodbyeEnds | src/dialogue_agent.py:101-104 | the closing line of the agreement sequence ends with "Goodbye." |
| Dialogue.CantPayAgrees | src/dialogue_agent.py:26-29 | affirmative words are tried first: "I can't pay" is AGREES_TO_PAY |
| Dialogue.ProblemRefuses | src/dialogue_agent.py:28-29 | a transcript reading "problem", in any case, holds no affirmative word and is a refusal |
| Dialogue.AgreementSurvivesContext | src/dialogue_agent.py:24-27 | text that agrees still agrees with anything said before or after it |
| Dialogue.CaseInsensitive | src/dialogue_agent.py:24 | lower-casing the transcript first does not change the intent |
| Dialogue.KeywordIgnoresHistory | src/dialogue_agent.py:17-31 | the keyword classifier gives the same answer for any history, and only the three labels |
| Dialogue.LlmFallbackAsksToRepeat | src/dialogue_agent.py:63-84 | a failed completion, or an object without "intent", plans the repeat request with intent UNCLEAR |
| Dialogue.OtherIntentsAskToRepeat | src/dialogue_agent.py:116-125 | any intent other than the two handled ones (REQUESTS_INFO, END_CONVERSATION, …) plans the repeat request and keeps its label |
| Dialogue.AgreementSmsDefaults | src/dialogue_agent.py:79-80 | without name and loan_amount the SMS uses "there" and "your amount" |
| ActionAgent.SendSms | src/action_agent.py:40-49 | one SMS request to the given number with the given text; the service's flag is returned unchanged |
| ActionAgent.LookupNumber | src/action_agent.py:51-60 | one lookup request for the number; the service's answer is returned unchanged |
| ActionAgent.ExecuteAction | src/action_agent.py:15-38 | SEND_SMS sends the message (default "You have a new message.") to the phone; LOOKUP_NUMBER looks the phone up; any other or missing type makes no request and returns False |
| ActionAgent.PlanEntryDispatch | src/action_agent.py:28-38 | a plan's SEND_SMS entry sends exactly its message to the caller; REPLY and END_CALL entries reach no service |
| ActionAgent.MissingMessageDefault | src/action_agent.py:31 | a SEND_SMS without a message sends the default text |
| VoiceBotServer.RunPrefix | server.py:97-112 | the entries that run are a prefix of the payload, hold no END_CALL before the last, and end with an END_CALL when the run stops early |
| VoiceBotServer.RunPrefixStopsAt | server.py:109-112 | the run stops right after the first END_CALL and includes it |
| VoiceBotServer.RunPrefixWhole | server.py:97-112 | without an END_CALL the whole payload runs |
| VoiceBotServer.EndCallEndsTurn | server.py:109-112 | a run reaching an END_CALL answers with that END_CALL's text, whatever replies came before |
| VoiceBotServer.AgreementTurn | server.py:97-112 | an agreement performs reply, SMS and goodbye; the response is the goodbye; two agent lines; one SMS to the caller; the customer is logged as SMS_SENT with the SMS as notes |
| VoiceBotServer.RefusalTurn | server.py:114-117 | a refusal answers with the goodbye, adds one agent line, and sends and logs nothing |
| VoiceBotServer.OtherTurn | server.py:119-122 | any other intent replies with the repeat request, adds one agent line, and sends and logs nothing |
| VoiceBotServer.SmsOnlyMembers | server.py:174-179 | the collected actions are exactly the payload's SEND_SMS entries, none dropped or invented |
| VoiceBotServer.UploadSmsActions | server.py:174-179 | the upload executes the payment SMS exactly when the intent is an agreement, and nothing otherwise |
| VoiceBotServer.UploadStatus | server.py:164-170 | SUCCESSFUL iff agreement, NEEDS FOLLOW-UP iff refusal, otherwise UNCLEAR |
| VoiceBotServer.KeywordUploadStatus | server.py:163-172 | with the keyword classifier, SUCCESSFUL iff an affirmative word occurs, NEEDS FOLLOW-UP iff none does and a refusal word does |
| VoiceBotServer.TranscriptionFailureNotCaught | server.py:159-161 | a "[Transcription failed: …]" report passes the marker check |
| VoiceBotServer.GroqErrorNotCaught | server.py:159-161 | a "[Groq API error: … - …]" report passes the marker check |
| VoiceBotServer.Server.constructor | server.py:17-22 | the server starts with no conversation histories and no service requests |
| VoiceBotServer.Server.HandleWebhook | server.py:70-133 | a user transcript is handled as `TranscriptHandled` states; call-end removes that call's history (no-op if absent); anything else changes nothing; both answer {} |
| VoiceBotServer.Server.HandleTranscript | server.py:78-124 | unknown caller: the apology and no change; else "User: " line appended, plan made on that history, response, agent lines, SMS requests and SMS_SENT logs as the performed actions dictate |
| VoiceBotServer.Server.RunPlan | server.py:97-122 | running a plan yields the response, history lines, requests and table that its performed actions define |
| VoiceBotServer.Server.RunSingle | server.py:114-122 | an END_CALL or REPLY plan performs its one action |
| VoiceBotServer.Server.RunSequence | server.py:97-112 | the loop performs exactly the run prefix, in order, with the effects it defines |
| VoiceBotServer.Server.RunAction | server.py:99-112 | REPLY sets the reply and adds a line; SEND_SMS sends to the caller and logs SMS_SENT; END_CALL replaces the response and adds a line |
| VoiceBotServer.Server.UploadRecording | server.py:136-192 | unknown customer 404 and marker 500, both without writes; otherwise the intent's status is logged with the transcript, and the report lists the SMS actions, which were each sent to the customer's phone |
| VoiceBotServer.Server.SendEntry | server.py:177-179 | one SEND_SMS entry makes exactly its SMS request |
| VoiceBotServer.Server.SendSmsEntries | server.py:174-179 | the loop collects the SEND_SMS entries in order and sends each to the phone |
| Outcomes.Heuristic | src/outcome_agent.py:18-26 | keys status and notes; notes are the transcript verbatim; SUCCESSFUL iff an affirmative word occurs; NEED FOLLOW UP iff none does and a follow-up word does; otherwise FAILED |
| Outcomes.OutcomeAgent.constructor | src/outcome_agent.py:8-12 | the agent keeps its mode, its completion and its table |
| Outcomes.OutcomeAgent.ClassifyResponse | src/outcome_agent.py:14-52 | raises only when the model call raises; exactly the heuristic verdict without the model; FAILED with the transcript as notes when the answer does not parse; the parsed object otherwise |
| Outcomes.OutcomeAgent.ProcessCustomer | src/outcome_agent.py:55-60 | the classified status and notes are logged for the id and returned; a classification raising or lacking status/notes raises before any write |
| Outcomes.AffirmativeFirst | src/outcome_agent.py:21-24 | "No, I can't pay" is SUCCESSFUL: affirmative words are tried first |
| Outcomes.ProblemIsNoFollowUp | src/outcome_agent.py:23-24 | a transcript reading "problem", in any case, is FAILED here, because the list spells "probelm", while the dialogue classifier reads it as a refusal |
| Outcomes.SuccessIsAgreement | src/outcome_agent.py:21-22 | the heuristic says SUCCESSFUL exactly when the dialogue classifier says AGREES_TO_PAY |
| Outcomes.FollowUpIsRefusal | src/outcome_agent.py:23-24 | where neither "problem" nor "probelm" occurs, NEED FOLLOW UP exactly when the dialogue classifier says REFUSES_TO_PAY |
| LegacyServer.StatusOf | src/server.py:86-110 | NEED FOLLOW UP iff a refusal pattern or a delay word occurs; SUCCESSFUL iff neither does and a positive pattern or "yes" with a time word does; FAILED iff none of these |
| LegacyServer.ClassifyTranscript | src/server.py:82-110 | the notes are the transcript as given (including None); the status is the cascade's verdict on the lower-cased, stripped transcript |
| LegacyServer.RulesSuccessAgrees | src/server.py:95-107 | every SUCCESSFUL of the rules is also SUCCESSFUL for the outcome heuristic and AGREES_TO_PAY for the dialogue classifier |
| LegacyServer.PositiveSaysPay | src/server.py:96-103 | each of the six positive patterns can only match text containing "pay" |
| LegacyServer.PromiseWithoutObjection | src/server.py:86-104 | a promise to pay at a word boundary anywhere in a transcript with no negation word, refusal phrase or delay word in any case is SUCCESSFUL |
| LegacyServer.PromiseStatusAt | src/server.py:86-104 | on normalized text, a promise at a word boundary with no negation, refusal phrase or delay word is SUCCESSFUL |
| LegacyServer.AbsentWordsNoRefusal | src/server.py:87-89 | the refusal rule cannot fire on text containing none of its negation words and phrases |
| LegacyServer.PromiseSucceeds | src/server.py:96-105 | "I will pay", in any letter case, is SUCCESSFUL |
| LegacyServer.PromiseMatches | src/server.py:97 | the promise pattern matches "i will pay" at a word boundary |
| LegacyServer.PromiseHasNoRefusal | src/server.py:87-89 | "i will pay" does not trigger the refusal rule |
| LegacyServer.PromiseHasNoDelay | src/server.py:92-93 | "i will pay" contains no delay word |
| LegacyServer.NegationBeatsPromise | src/server.py:87-90 | "No problem, I will pay" needs a follow-up here, while both keyword classifiers take it for agreement |
| LegacyServer.NoThenPay | src/server.py:86-89 | text opening with the word "no" and holding the word "pay" later on that line is a refusal and needs a follow-up |
| LegacyServer.PaddingAndCaseIgnored | src/server.py:84 | any whitespace before and after the transcript, and the case of its letters, do not change the status |
| LegacyServer.BlankTranscriptFails | src/server.py:84-110 | no transcript, or whitespace only, is FAILED with that transcript as notes |
| LegacyServer.NothingMatchesEmpty | src/server.py:86-110 | no rule fires on empty text |
| LegacyServer.LaterNeedsFollowUp | src/server.py:92-94 | anything followed by " later" needs a follow-up |
| LegacyServer.AppendNote | src/server.py:525-531 | with notes present and non-empty, old notes, a line feed, then the message; otherwise the message alone |
| LegacyServer.NotesOnlyGrow | src/server.py:525-531 | the old notes stay a prefix and the message ends the new notes |
| LegacyServer.CallNotesAccumulate | src/server.py:525-533 | two call requests keep both messages, oldest first, a line apart |
| LegacyServer.KeptStatus | src/server.py:533 | a non-empty status is kept; an empty one is written as 'Pending' |
| LegacyServer.HandleMakeCall | src/server.py:502-541 | unknown id: 404 and no write; otherwise status kept and the call message appended to the notes |
| LegacyServer.UploadTranscript | src/server.py:441-474 | the transcription if non-empty, else the stripped fallback if non-empty, else "Unable to transcribe audio"; never empty |
| LegacyServer.ChosenId | src/server.py:477-482 | a non-zero id is used as given; 0 picks the first pending customer, or nobody when none is pending |
| LegacyServer.ZeroPicksFirstPending | src/server.py:477-482 | for 0, nobody iff no customer is pending; otherwise a pending customer with no lower-id pending customer |
| LegacyServer.HandleUpload | src/server.py:430-500 | nothing written without a chosen customer; otherwise the agent's outcome, or the rule verdict with the transcript when there is no agent or it raises |
| LegacyServer.RecordVerdict | src/server.py:488-492 | the rule-based status is logged with the transcript as notes |

## Left out

- Language-model completions (intent classification and outcome classification) are oracle parameters. The prompts, the model names and their answers are not modelled. `Outcomes.OutcomeAgent.ClassifyResponse` takes a parsed answer to be a string-to-string object.
- The vendor services are not modelled: Twilio calls and SMS, the Vapi start-call API, and Groq/Google speech-to-text. The SMS and lookup service is an abstract function pair whose requests are logged. A transcription is a parameter of the upload handlers.
- HTTP and file plumbing are not modelled: FastAPI/CORS, temporary files, the cgi form parsing, redirects and HTML rendering. The handlers take the parsed fields as parameters.
- `start_customer_call` and the health, all-customers and pending-customers endpoints of server.py: only their table reads are modelled (`FetchCustomerById`, `FetchAllCustomers`, `FetchDueCustomers`).
- Webhook bodies missing a key that server.py indexes directly: the source raises KeyError there. The model's event type always carries those fields.
- `seed_data`'s random names, phones, dates and amounts: `Seed` takes the generated batch as input.
- `int(...)` parse failures of form fields, the "Database not available" 503 replies, and the outer `except` blocks that swallow errors and redirect in src/server.py are not modelled.
- NULL `name`, `phone` or `call_status` columns: these are strings in the model. `KeptStatus` reads an empty status where the source also reads NULL.
- JSON values that are not strings: plan and outcome dictionaries are string-to-string maps.
- Lower-casing and `\w` cover ASCII only. `\s` and `str.strip` use the Unicode whitespace set. The regular expressions are written as explicit predicates: `WordThenPay`, `PayThenWord`, `SpacedAt`.
- Concurrency on `conversation_histories`: events are handled one at a time.
- `LegacyServer.HandleUpload` requires the outcome agent's table to be the server's table. In the source the agent opens its own `Database()` connection to the same customers.db file, so the two see the same rows; the model merges the two connections into one table object.
- The `__main__` demo blocks of the source files are not modelled.
