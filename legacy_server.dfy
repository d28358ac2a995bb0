/**
 * src/server.py: the rule-based outcome classifier `classify_transcript`, and
 * the two rules inside the POST handler that decide what is written to the
 * customer table: the note appended by "/make_call" and the transcript and
 * customer chosen by "/upload". Regular expressions are written out as
 * predicates on positions of the text; `\b` and `\w` are taken over ASCII.
 */
module LegacyServer {
  import opened Wrappers
  import opened Text
  import opened CustomerStore
  import Outcomes
  import Dialogue

  const SUCCESSFUL := "SUCCESSFUL"
  const NEED_FOLLOW_UP := "NEED FOLLOW UP"
  const FAILED := "FAILED"

  /** The alternatives of the two negation patterns, `(not|no|never|won't|cannot|can't|don't|dont|unable)`. */
  const NEGATIONS: seq<string> := ["not", "no", "never", "won't", "cannot", "can't", "don't", "dont", "unable"]
  /** Substrings that mark a refusal by themselves. */
  const REFUSAL_PHRASES: seq<string> := ["not pay", "no pay", "refuse", "refusing"]
  const DELAY_WORDS: seq<string> :=
    ["later", "next week", "after", "sometime", "soonish", "month end", "end of month", "delay", "busy"]
  /** The words that, followed later on the line by the word "pay", make the last three positive patterns. */
  const ASSENTS: seq<string> := ["yes", "ok", "okay", "sure"]
  const TIME_WORDS: seq<string> := ["tomorrow", "today", "soon"]
  const UNABLE_TO_TRANSCRIBE := "Unable to transcribe audio"

  /** What `classify_transcript` returns: the status and, as notes, the transcript it was given. */
  datatype Verdict = Verdict(status: string, notes: Option<string>)

  /** `\b` at position p: exactly one of the characters either side is a word character. */
  predicate Boundary(t: string, p: int) {
    0 <= p <= |t| && ((p > 0 && IsWordChar(t[p - 1])) != (p < |t| && IsWordChar(t[p])))
  }

  /** `\bw\b` matched at position i. */
  predicate WordAt(t: string, w: string, i: int) {
    OccursAt(t, w, i) && Boundary(t, i) && Boundary(t, i + |w|)
  }

  /** What `.*` can span: no line feed between a and b. */
  predicate OnOneLine(t: string, a: int, b: int) {
    forall k :: a <= k < b && 0 <= k < |t| ==> t[k] != '\n'
  }

  /** `\b(w1|w2|…)\b.*\bpay\b`. */
  predicate WordThenPay(t: string, words: seq<string>) {
    exists k, i, j :: 0 <= k < |words| && 0 <= i <= |t| && 0 <= j <= |t|
      && WordAt(t, words[k], i) && WordAt(t, "pay", j)
      && i + |words[k]| <= j && OnOneLine(t, i + |words[k]|, j)
  }

  /** `\bpay\b.*\b(w1|w2|…)\b`. */
  predicate PayThenWord(t: string, words: seq<string>) {
    exists k, i, j :: 0 <= k < |words| && 0 <= i <= |t| && 0 <= j <= |t|
      && WordAt(t, "pay", i) && WordAt(t, words[k], j)
      && i + 3 <= j && OnOneLine(t, i + 3, j)
  }

  /** `\s+` spanning exactly the positions a .. b-1. */
  predicate SpaceRun(t: string, a: int, b: int) {
    0 <= a < b <= |t| && forall k :: a <= k < b ==> IsSpace(t[k])
  }

  /**
   * `(…|…)\s+(…|…)\s+…(…|…)\b` matched from position i: one alternative of each
   * part in turn, consecutive parts separated by whitespace, a word boundary after the last.
   */
  predicate SpacedAt(t: string, parts: seq<seq<string>>, i: int)
    decreases |parts|
  {
    |parts| > 0 &&
    exists w :: w in parts[0] && OccursAt(t, w, i) &&
      if |parts| == 1 then Boundary(t, i + |w|)
      else exists p :: 0 <= p <= |t| && SpaceRun(t, i + |w|, p) && SpacedAt(t, parts[1..], p)
  }

  /** The phrase patterns of the positive list: a promise to pay, "make the payment", "pay today". */
  const PROMISE: seq<seq<string>> := [["i", "we"], ["will", "can", "shall", "plan to", "intend to"], ["pay"]]
  const MAKE_PAYMENT: seq<seq<string>> := [["make", "do"], ["the"], ["payment"]]
  const PAY_SOON: seq<seq<string>> := [["pay", "paying"], ["today", "tomorrow", "soon", "now"]]

  /** The first rule: a negation on the same line as the word "pay", either way round, or a refusal phrase. */
  predicate Refusal(t: string) {
    WordThenPay(t, NEGATIONS) || PayThenWord(t, NEGATIONS) || ContainsAny(t, REFUSAL_PHRASES)
  }

  /** One of the three phrase patterns, starting at a word boundary at i. */
  predicate PhraseAt(t: string, i: int) {
    0 <= i <= |t| && Boundary(t, i) && (SpacedAt(t, PROMISE, i) || SpacedAt(t, MAKE_PAYMENT, i) || SpacedAt(t, PAY_SOON, i))
  }

  /** Any of the six positive patterns. */
  predicate Positive(t: string) {
    (exists i :: 0 <= i <= |t| && PhraseAt(t, i)) || WordThenPay(t, ASSENTS)
  }

  /** The last rule: "yes" together with a time word, anywhere, as substrings. */
  predicate YesWithTime(t: string) {
    Contains(t, "yes") && ContainsAny(t, TIME_WORDS)
  }

  /** The text the rules read: `(transcript or "").lower().strip()`. */
  function Normalized(transcript: Option<string>): string {
    Strip(Lower(if transcript.Some? then transcript.value else ""))
  }

  /** The rule cascade on the normalized text: refusal, then delay, then the positive patterns, then "yes" with a time word. */
  function StatusOf(t: string): (r: string)
    ensures r in {SUCCESSFUL, NEED_FOLLOW_UP, FAILED}
    ensures r == NEED_FOLLOW_UP <==> Refusal(t) || ContainsAny(t, DELAY_WORDS)
    ensures r == SUCCESSFUL <==> !Refusal(t) && !ContainsAny(t, DELAY_WORDS) && (Positive(t) || YesWithTime(t))
    ensures r == FAILED <==> !Refusal(t) && !ContainsAny(t, DELAY_WORDS) && !Positive(t) && !YesWithTime(t)
  {
    if Refusal(t) then NEED_FOLLOW_UP
    else if ContainsAny(t, DELAY_WORDS) then NEED_FOLLOW_UP
    else if Positive(t) then SUCCESSFUL
    else if YesWithTime(t) then SUCCESSFUL
    else FAILED
  }

  /** `classify_transcript`: the status the rules give the normalized text, with the transcript itself as notes. */
  function ClassifyTranscript(transcript: Option<string>): (r: Verdict)
    ensures r.notes == transcript
    ensures r.status in {SUCCESSFUL, NEED_FOLLOW_UP, FAILED}
    ensures r.status == StatusOf(Normalized(transcript))
  {
    Verdict(StatusOf(Normalized(transcript)), transcript)
  }

  /** `(notes + "\n" if notes else "") + message`: the message appended on a line of its own. */
  function AppendNote(notes: Option<string>, message: string): (r: string)
    ensures notes.None? || notes == Some("") ==> r == message
    ensures notes.Some? && notes.value != "" ==> r == notes.value + "\n" + message
  {
    if notes.Some? && notes.value != "" then notes.value + "\n" + message else message
  }

  /** What became of the call request: no caller configured, the SID the caller returned (if any), or an exception. */
  datatype CallAttempt = NotConfigured | Returned(sid: Option<string>) | CallRaised(error: string)

  /** The message of a call request recorded in the notes. */
  function CallMessage(attempt: CallAttempt): string {
    match attempt
    case NotConfigured => "Call requested (Twilio not configured in this environment)"
    case Returned(sid) =>
      if sid.Some? && sid.value != "" then "Twilio call initiated SID: " + sid.value
      else "Call requested but Twilio call failed"
    case CallRaised(error) => "Call failed: " + error
  }

  /** `call_status or "Pending"`: the status a make-call request writes back. */
  function KeptStatus(status: string): (r: string)
    ensures r != ""
    ensures status != "" ==> r == status
    ensures status == "" ==> r == PENDING
  {
    if status != "" then status else PENDING
  }

  /**
   * The transcript an upload is classified on: the transcription when it is
   * non-empty, else the stripped fallback field when that is non-empty, else
   * the fixed placeholder. It is never empty.
   */
  function UploadTranscript(transcribed: Option<string>, fallback: string): (r: string)
    ensures r != ""
    ensures transcribed.Some? && transcribed.value != "" ==> r == transcribed.value
    ensures (transcribed.None? || transcribed == Some("")) && Strip(fallback) != "" ==> r == Strip(fallback)
    ensures (transcribed.None? || transcribed == Some("")) && Strip(fallback) == "" ==> r == UNABLE_TO_TRANSCRIBE
  {
    if transcribed.Some? && transcribed.value != "" then transcribed.value
    else if Strip(fallback) != "" then Strip(fallback)
    else UNABLE_TO_TRANSCRIBE
  }

  /** The customer an upload is recorded against: the id given, or for 0 the first pending customer, if any. */
  function ChosenId(customerId: int, pending: seq<Customer>): (r: Option<int>)
    ensures customerId != 0 ==> r == Some(customerId)
    ensures customerId == 0 && pending != [] ==> r == Some(pending[0].id)
    ensures r.None? <==> customerId == 0 && pending == []
  {
    if customerId != 0 then Some(customerId)
    else if pending != [] then Some(pending[0].id)
    else None
  }

  /** The reply of "/make_call": 404 for an unknown customer, otherwise a redirect. */
  datatype MakeCallReply = CustomerNotFound | Redirected

  /**
   * "/make_call": the customer's status is written back (an empty one as
   * 'Pending') and a line describing the call request is appended to the notes.
   */
  method HandleMakeCall(db: Database, customerId: int, attempt: CallAttempt) returns (reply: MakeCallReply)
    requires db.Valid()
    modifies db
    ensures db.Valid() && db.nextId == old(db.nextId)
    ensures customerId !in old(db.rows) ==> reply == CustomerNotFound && db.rows == old(db.rows)
    ensures customerId in old(db.rows) ==>
      var c := old(db.rows)[customerId];
      reply == Redirected &&
      db.rows == Logged(old(db.rows), customerId, KeptStatus(c.callStatus), AppendNote(c.notes, CallMessage(attempt)))
  {
    var found := db.FetchCustomerById(customerId);
    if found.None? {
      return CustomerNotFound;
    }
    var c := found.value;
    var note := AppendNote(c.notes, CallMessage(attempt));
    db.LogCallOutcome(customerId, KeptStatus(c.callStatus), note);
    reply := Redirected;
  }

  /**
   * "/upload": the transcript is chosen, the customer is chosen, and the outcome
   * is recorded through the outcome agent; without an agent, or when the agent
   * raises, `classify_transcript` decides and its verdict is recorded instead.
   */
  method HandleUpload(db: Database, agent: Outcomes.OutcomeAgent?, customerId: int,
                      transcribed: Option<string>, fallback: string)
    requires db.Valid() && (agent != null ==> agent.db == db)
    modifies db
    ensures db.Valid() && db.nextId == old(db.nextId)
    ensures db.rows == Uploaded(old(db.rows), ChosenId(customerId, Where(old(db.rows), 1, old(db.nextId), IsPending)),
                                UploadTranscript(transcribed, fallback), AgentOutcome(agent, UploadTranscript(transcribed, fallback)))
  {
    var transcript := UploadTranscript(transcribed, fallback);
    ghost var rows0 := db.rows;
    var pending := db.FetchDueCustomers();
    assert pending == Where(rows0, 1, db.nextId, IsPending);
    var chosen := ChosenId(customerId, pending);
    ghost var outcome0 := AgentOutcome(agent, transcript);
    if chosen.None? {
      return;
    }
    var id := chosen.value;
    if agent != null {
      var outcome := agent.ProcessCustomer(transcript, id);
      if outcome.Err? {
        RecordVerdict(db, id, transcript);
        assert db.rows == Uploaded(rows0, chosen, transcript, outcome0);
      } else {
        assert db.rows == Uploaded(rows0, chosen, transcript, outcome0);
      }
    } else {
      RecordVerdict(db, id, transcript);
      assert db.rows == Uploaded(rows0, chosen, transcript, outcome0);
    }
  }

  /** The outcome agent's classification, with a missing agent counted as one that raised. */
  function AgentOutcome(agent: Outcomes.OutcomeAgent?, transcript: string): Result<Outcomes.Json, Outcomes.OutcomeError> {
    if agent == null then Err(Outcomes.CompletionRaised) else agent.ClassifyResponse(transcript)
  }

  /**
   * The table after an upload: nothing is written without a customer; the agent's
   * status and notes when it produced both; otherwise the rule-based verdict with the transcript.
   */
  function Uploaded(rows: Rows, chosen: Option<int>, transcript: string,
                    agentOutcome: Result<Outcomes.Json, Outcomes.OutcomeError>): Rows {
    if chosen.None? then rows
    else if agentOutcome.Ok? && "status" in agentOutcome.value && "notes" in agentOutcome.value then
      Logged(rows, chosen.value, agentOutcome.value["status"], agentOutcome.value["notes"])
    else
      Logged(rows, chosen.value, ClassifyTranscript(Some(transcript)).status, transcript)
  }

  /** The fallback of "/upload": `classify_transcript` decides, and its status and notes are logged. */
  method RecordVerdict(db: Database, id: int, transcript: string)
    requires db.Valid()
    modifies db
    ensures db.Valid() && db.nextId == old(db.nextId)
    ensures db.rows == Logged(old(db.rows), id, ClassifyTranscript(Some(transcript)).status, transcript)
  {
    var verdict := ClassifyTranscript(Some(transcript));
    db.LogCallOutcome(id, verdict.status, verdict.notes.value);
  }

  /** A pattern built on words can only match text that contains one of them. */
  lemma AbsentWordsNoRefusal(t: string)
    requires !ContainsAny(t, NEGATIONS) && !ContainsAny(t, REFUSAL_PHRASES)
    ensures !Refusal(t)
  {
    AbsentWordsNoPairs(t, NEGATIONS);
  }

  lemma AbsentWordsNoPairs(t: string, words: seq<string>)
    requires !ContainsAny(t, words)
    ensures !WordThenPay(t, words) && !PayThenWord(t, words)
  {
    if WordThenPay(t, words) {
      var k, i, j :| 0 <= k < |words| && 0 <= i <= |t| && 0 <= j <= |t|
        && WordAt(t, words[k], i) && WordAt(t, "pay", j)
        && i + |words[k]| <= j && OnOneLine(t, i + |words[k]|, j);
      OccursContains(t, words[k], i);
    }
    if PayThenWord(t, words) {
      var k, i, j :| 0 <= k < |words| && 0 <= i <= |t| && 0 <= j <= |t|
        && WordAt(t, "pay", i) && WordAt(t, words[k], j)
        && i + 3 <= j && OnOneLine(t, i + 3, j);
      OccursContains(t, words[k], j);
    }
  }

  /**
   * Every success of the rules is also an agreement for both keyword classifiers:
   * each positive pattern needs "pay" and the last rule needs "yes", and the
   * normalized text is a piece of the lower-cased transcript.
   */
  lemma RulesSuccessAgrees(s: string)
    requires ClassifyTranscript(Some(s)).status == SUCCESSFUL
    ensures Outcomes.Heuristic(s)["status"] == Outcomes.SUCCESSFUL
    ensures Dialogue.KeywordIntent(s) == Dialogue.AGREES_TO_PAY
  {
    var t := Normalized(Some(s));
    assert t == Strip(Lower(s));
    if Positive(t) {
      PositiveSaysPay(t);
      ContainsFromStrip(Lower(s), "pay");
      assert "pay" in Outcomes.AFFIRMATIVE_WORDS && "pay" in Dialogue.AFFIRMATIVE_WORDS;
      SaidAffirmativeAgrees(s, "pay");
    } else {
      assert YesWithTime(t);
      ContainsFromStrip(Lower(s), "yes");
      assert "yes" in Outcomes.AFFIRMATIVE_WORDS && "yes" in Dialogue.AFFIRMATIVE_WORDS;
      SaidAffirmativeAgrees(s, "yes");
    }
  }

  /** Each of the six positive patterns holds the word "pay", or "payment" or "paying", which start with it. */
  lemma PositiveSaysPay(t: string)
    requires Positive(t)
    ensures Contains(t, "pay")
  {
    if WordThenPay(t, ASSENTS) {
      ThenPaySaysPay(t, ASSENTS);
    } else {
      var i :| PhraseAt(t, i);
      PhraseSaysPay(t, i);
    }
  }

  lemma ThenPaySaysPay(t: string, words: seq<string>)
    requires WordThenPay(t, words)
    ensures Contains(t, "pay")
  {
    var k, i, j :| 0 <= k < |words| && 0 <= i <= |t| && 0 <= j <= |t|
      && WordAt(t, words[k], i) && WordAt(t, "pay", j)
      && i + |words[k]| <= j && OnOneLine(t, i + |words[k]|, j);
    OccursContains(t, "pay", j);
  }

  lemma PhraseSaysPay(t: string, i: int)
    requires PhraseAt(t, i)
    ensures Contains(t, "pay")
  {
    if SpacedAt(t, PROMISE, i) {
      PromiseSaysPay(t, i);
    } else if SpacedAt(t, MAKE_PAYMENT, i) {
      MakePaymentSaysPay(t, i);
    } else {
      PaySoonSaysPay(t, i);
    }
  }

  lemma PromiseSaysPay(t: string, i: int)
    requires SpacedAt(t, PROMISE, i)
    ensures Contains(t, "pay")
  {
    PayStartsAll(PROMISE[2]);
    SpacedLastStarts(t, PROMISE, i, "pay");
  }

  lemma MakePaymentSaysPay(t: string, i: int)
    requires SpacedAt(t, MAKE_PAYMENT, i)
    ensures Contains(t, "pay")
  {
    PayStartsAll(MAKE_PAYMENT[2]);
    SpacedLastStarts(t, MAKE_PAYMENT, i, "pay");
  }

  lemma PaySoonSaysPay(t: string, i: int)
    requires SpacedAt(t, PAY_SOON, i)
    ensures Contains(t, "pay")
  {
    PayStartsAll(PAY_SOON[0]);
    SpacedFirstStarts(t, PAY_SOON, i, "pay");
  }

  /** Every alternative in `alts` begins with `prefix`. */
  predicate StartAll(alts: seq<string>, prefix: string) {
    forall k :: 0 <= k < |alts| ==> |prefix| <= |alts[k]| && alts[k][..|prefix|] == prefix
  }

  /** "pay", "payment" and "paying" all begin with "pay". */
  lemma PayStartsAll(alts: seq<string>)
    requires alts == ["pay"] || alts == ["payment"] || alts == ["pay", "paying"]
    ensures StartAll(alts, "pay")
  {
    forall k | 0 <= k < |alts| ensures |alts[k]| >= 3 && alts[k][..3] == "pay" {
      var w := alts[k];
      assert w == "pay" || w == "payment" || w == "paying";
      assert w[0] == 'p' && w[1] == 'a' && w[2] == 'y';
    }
  }

  /** When a phrase pattern matches and every alternative of its first part begins with `prefix`, the text holds `prefix`. */
  lemma SpacedFirstStarts(t: string, parts: seq<seq<string>>, i: int, prefix: string)
    requires SpacedAt(t, parts, i) && StartAll(parts[0], prefix)
    ensures Contains(t, prefix)
  {
    var w :| w in parts[0] && OccursAt(t, w, i);
    var k :| 0 <= k < |parts[0]| && parts[0][k] == w;
    OccursStart(t, w, i, |prefix|);
    OccursContains(t, prefix, i);
  }

  /** The same for the last part of the pattern. */
  lemma SpacedLastStarts(t: string, parts: seq<seq<string>>, i: int, prefix: string)
    requires SpacedAt(t, parts, i) && StartAll(parts[|parts| - 1], prefix)
    ensures Contains(t, prefix)
  {
    var w, j := SpacedEndsWithLast(t, parts, i);
    var k :| 0 <= k < |parts[|parts| - 1]| && parts[|parts| - 1][k] == w;
    OccursStart(t, w, j, |prefix|);
    OccursContains(t, prefix, j);
  }

  /** The start of an occurrence is an occurrence. */
  lemma OccursStart(t: string, w: string, j: int, n: int)
    requires OccursAt(t, w, j) && 0 <= n <= |w|
    ensures OccursAt(t, w[..n], j)
  {
    assert t[j..j + n] == t[j..j + |w|][..n];
  }

  /** A phrase pattern that matches has an alternative of its last part somewhere in the text. */
  lemma {:induction false} SpacedEndsWithLast(t: string, parts: seq<seq<string>>, i: int) returns (w: string, j: int)
    requires SpacedAt(t, parts, i)
    ensures w in parts[|parts| - 1] && OccursAt(t, w, j)
    decreases |parts|
  {
    if |parts| == 1 {
      w := SpacedOnly(t, parts, i);
      j := i;
    } else {
      var p := SpacedNext(t, parts, i);
      LastOfRest(parts);
      w, j := SpacedEndsWithLast(t, parts[1..], p);
    }
  }

  /** A one-part pattern that matches at i matches one of its alternatives there. */
  lemma SpacedOnly(t: string, parts: seq<seq<string>>, i: int) returns (w: string)
    requires |parts| == 1 && SpacedAt(t, parts, i)
    ensures w in parts[0] && OccursAt(t, w, i)
  {
    w :| w in parts[0] && OccursAt(t, w, i) && Boundary(t, i + |w|);
  }

  /** A longer pattern that matches at i has the rest of it matching further on. */
  lemma SpacedNext(t: string, parts: seq<seq<string>>, i: int) returns (p: int)
    requires |parts| > 1 && SpacedAt(t, parts, i)
    ensures SpacedAt(t, parts[1..], p)
  {
    var u :| u in parts[0] && OccursAt(t, u, i)
      && exists q :: 0 <= q <= |t| && SpaceRun(t, i + |u|, q) && SpacedAt(t, parts[1..], q);
    p :| 0 <= p <= |t| && SpaceRun(t, i + |u|, p) && SpacedAt(t, parts[1..], p);
  }

  lemma LastOfRest<T>(s: seq<T>)
    requires |s| > 1
    ensures s[1..][|s| - 2] == s[|s| - 1]
  {
  }

  /**
   * A promise to pay anywhere in the transcript is a success, provided no negation
   * word, refusal phrase or delay word occurs in it in any letter case.
   */
  lemma PromiseWithoutObjection(s: string, i: int)
    requires Boundary(Normalized(Some(s)), i) && SpacedAt(Normalized(Some(s)), PROMISE, i)
    requires !ContainsAny(Lower(s), NEGATIONS)
    requires !ContainsAny(Lower(s), REFUSAL_PHRASES)
    requires !ContainsAny(Lower(s), DELAY_WORDS)
    ensures ClassifyTranscript(Some(s)).status == SUCCESSFUL
  {
    var t := Normalized(Some(s));
    assert t == Strip(Lower(s));
    AbsentAfterStrip(Lower(s), NEGATIONS);
    AbsentAfterStrip(Lower(s), REFUSAL_PHRASES);
    AbsentAfterStrip(Lower(s), DELAY_WORDS);
    PromiseStatusAt(t, i);
  }

  lemma PromiseStatusAt(t: string, i: int)
    requires Boundary(t, i) && SpacedAt(t, PROMISE, i)
    requires !ContainsAny(t, NEGATIONS)
    requires !ContainsAny(t, REFUSAL_PHRASES) && !ContainsAny(t, DELAY_WORDS)
    ensures StatusOf(t) == SUCCESSFUL
  {
    AbsentWordsNoRefusal(t);
    PositiveFromPhrase(t, i);
  }

  /** A plain promise is a success: "I will pay", in any mix of upper and lower case. */
  lemma PromiseSucceeds(s: string)
    requires SaysPromise(Lower(s))
    ensures ClassifyTranscript(Some(s)).status == SUCCESSFUL
  {
    var t := Lower(s);
    assert Normalized(Some(s)) == t by {
      StripUnchanged(t);
    }
    PromiseStatus(t);
  }

  lemma PromiseStatus(t: string)
    requires SaysPromise(t)
    ensures StatusOf(t) == SUCCESSFUL
  {
    PromiseHasNoRefusal(t);
    PromiseHasNoDelay(t);
    PromiseMatches(t);
    PositiveFromPhrase(t, 0);
  }

  lemma PromiseMatches(t: string)
    requires SaysPromise(t)
    ensures Boundary(t, 0) && SpacedAt(t, PROMISE, 0)
  {
    PromiseWords(t);
    assert "i" in PROMISE[0] && "will" in PROMISE[1] && "pay" in PROMISE[2];
    SpacedThree(t, PROMISE, 0, "i", 2, "will", 7, "pay");
  }

  /** Where the three words of "i will pay" sit, and the single spaces between them. */
  lemma PromiseWords(t: string)
    requires SaysPromise(t)
    ensures Boundary(t, 0) && OccursAt(t, "i", 0) && SpaceRun(t, 1, 2)
    ensures OccursAt(t, "will", 2) && SpaceRun(t, 6, 7)
    ensures OccursAt(t, "pay", 7) && Boundary(t, 10)
  {
    assert IsWordChar(t[0]);
  }

  /** "i will pay", spelt out piece by piece. */
  predicate SaysPromise(t: string) {
    && |t| == 10 && t[0] == 'i' && t[1] == ' ' && t[2] == 'w' && t[3] == 'i' && t[4] == 'l' && t[5] == 'l'
    && t[6] == ' ' && t[7] == 'p' && t[8] == 'a' && t[9] == 'y'
  }

  /** A three-part phrase pattern matched by a, b and c at i, p and q, with whitespace between them. */
  lemma SpacedThree(t: string, parts: seq<seq<string>>, i: int, a: string, p: int, b: string, q: int, c: string)
    requires |parts| == 3 && a in parts[0] && b in parts[1] && c in parts[2]
    requires OccursAt(t, a, i) && SpaceRun(t, i + |a|, p)
    requires OccursAt(t, b, p) && SpaceRun(t, p + |b|, q)
    requires OccursAt(t, c, q) && Boundary(t, q + |c|)
    ensures SpacedAt(t, parts, i)
  {
    SpacedLast(t, parts[2..], q, c);
    assert parts[1..][1..] == parts[2..];
    SpacedStep(t, parts[1..], p, b, q);
    SpacedStep(t, parts, i, a, p);
  }

  /** The last part of a phrase pattern matched by the alternative w. */
  lemma SpacedLast(t: string, parts: seq<seq<string>>, i: int, w: string)
    requires |parts| == 1 && w in parts[0] && OccursAt(t, w, i) && Boundary(t, i + |w|)
    ensures SpacedAt(t, parts, i)
  {
  }

  /** A phrase pattern matched by the alternative w of its first part, whitespace, and the rest from p. */
  lemma SpacedStep(t: string, parts: seq<seq<string>>, i: int, w: string, p: int)
    requires |parts| > 1 && w in parts[0] && OccursAt(t, w, i)
    requires SpaceRun(t, i + |w|, p) && SpacedAt(t, parts[1..], p)
    ensures SpacedAt(t, parts, i)
  {
  }

  lemma PositiveFromPhrase(t: string, i: int)
    requires Boundary(t, i) && SpacedAt(t, PROMISE, i)
    ensures Positive(t)
  {
    assert PhraseAt(t, i);
  }

  lemma PromiseHasNoRefusal(t: string)
    requires SaysPromise(t)
    ensures !Refusal(t)
  {
    forall k | 0 <= k < |NEGATIONS| ensures !Contains(t, NEGATIONS[k]) {
      assert t[2..7][1] != "won't"[1];
      Dialogue.NoOccurrence(t, NEGATIONS[k]);
    }
    forall k | 0 <= k < |REFUSAL_PHRASES| ensures !Contains(t, REFUSAL_PHRASES[k]) {
      Dialogue.NoOccurrence(t, REFUSAL_PHRASES[k]);
    }
    AbsentEach(t, NEGATIONS);
    AbsentEach(t, REFUSAL_PHRASES);
    AbsentWordsNoRefusal(t);
  }

  lemma PromiseHasNoDelay(t: string)
    requires SaysPromise(t)
    ensures !ContainsAny(t, DELAY_WORDS)
  {
    forall k | 0 <= k < |DELAY_WORDS| ensures !Contains(t, DELAY_WORDS[k]) {
      assert t[5] == t[2..6][3] && t[6] == ' ';
      assert t[4..9][1] != "later"[1] && t[5..10][1] != "later"[1];
      Dialogue.NoOccurrence(t, DELAY_WORDS[k]);
    }
  }

  /**
   * A negation anywhere before "pay" on the same line wins over a promise:
   * "No problem, I will pay" needs a follow-up, although both keyword
   * classifiers take it for an agreement.
   */
  lemma NegationBeatsPromise(s: string)
    requires SaysNoProblem(Lower(s))
    ensures ClassifyTranscript(Some(s)).status == NEED_FOLLOW_UP
    ensures Outcomes.Heuristic(s)["status"] == Outcomes.SUCCESSFUL
    ensures Dialogue.KeywordIntent(s) == Dialogue.AGREES_TO_PAY
  {
    NoProblemNeedsFollowUp(s);
    NoProblemSaysPay(Lower(s));
    assert "pay" in Outcomes.AFFIRMATIVE_WORDS && "pay" in Dialogue.AFFIRMATIVE_WORDS;
    SaidAffirmativeAgrees(s, "pay");
  }

  lemma NoProblemNeedsFollowUp(s: string)
    requires SaysNoProblem(Lower(s))
    ensures ClassifyTranscript(Some(s)).status == NEED_FOLLOW_UP
  {
    var t := Lower(s);
    StripUnchanged(t);
    assert Normalized(Some(s)) == t;
    NoProblemPaysLater(t);
    NoThenPay(t, 19);
  }

  lemma NoProblemSaysPay(t: string)
    requires SaysNoProblem(t)
    ensures Contains(t, "pay")
  {
    OccursContains(t, "pay", 19);
  }

  /** Both keyword classifiers take any transcript holding one of their shared affirmative words for an agreement. */
  lemma SaidAffirmativeAgrees(s: string, w: string)
    requires w in Outcomes.AFFIRMATIVE_WORDS && w in Dialogue.AFFIRMATIVE_WORDS
    requires Contains(Lower(s), w)
    ensures Outcomes.Heuristic(s)["status"] == Outcomes.SUCCESSFUL
    ensures Dialogue.KeywordIntent(s) == Dialogue.AGREES_TO_PAY
  {
  }

  /** "no problem, i will pay", spelt out piece by piece. */
  predicate SaysNoProblem(t: string) {
    |t| == 22 && t[..3] == "no " && t[3..19] == "problem, i will " && t[19..] == "pay"
  }

  /** Text opening with the word "no" and holding the word "pay" later on that first line is a refusal. */
  lemma NoThenPay(t: string, j: int)
    requires |t| >= 3 && t[0] == 'n' && t[1] == 'o' && !IsWordChar(t[2])
    requires 3 <= j && WordAt(t, "pay", j)
    requires forall k :: 2 <= k < j ==> t[k] != '\n'
    ensures Refusal(t)
    ensures StatusOf(t) == NEED_FOLLOW_UP
  {
    assert t[..2] == NEGATIONS[1];
    assert WordAt(t, NEGATIONS[1], 0);
    assert OnOneLine(t, 2, j);
  }

  lemma NoProblemPaysLater(t: string)
    requires SaysNoProblem(t)
    ensures |t| >= 3 && t[0] == 'n' && t[1] == 'o' && !IsWordChar(t[2])
    ensures WordAt(t, "pay", 19)
    ensures forall k :: 2 <= k < 19 ==> t[k] != '\n'
  {
    assert t[..3] == "no ";
    assert t[18] == ' ';
    forall k | 3 <= k < 19 ensures t[k] != '\n' {
      assert t[k] == t[3..19][k - 3];
    }
  }

  /** Whitespace on either side of the transcript and the case of its letters do not change the verdict. */
  lemma PaddingAndCaseIgnored(ws: string, s: string, ws2: string)
    requires AllSpace(ws) && AllSpace(ws2)
    ensures ClassifyTranscript(Some(ws + s + ws2)).status == ClassifyTranscript(Some(s)).status
    ensures ClassifyTranscript(Some(Lower(s))).status == ClassifyTranscript(Some(s)).status
  {
    LowerConcat(ws, s);
    LowerConcat(ws + s, ws2);
    LowerAllSpace(ws);
    LowerAllSpace(ws2);
    StripPadded(Lower(ws), Lower(s), Lower(ws2));
    LowerIdempotent(s);
  }

  /** No transcript, or one of whitespace only, is FAILED; the notes keep the difference. */
  lemma BlankTranscriptFails(transcript: Option<string>)
    requires transcript.Some? ==> forall i :: 0 <= i < |transcript.value| ==> IsSpace(transcript.value[i])
    ensures ClassifyTranscript(transcript) == Verdict(FAILED, transcript)
  {
    if transcript.Some? {
      BlankStripsToEmpty(transcript.value);
    }
    NothingMatchesEmpty(Normalized(transcript));
  }

  lemma NothingMatchesEmpty(t: string)
    requires |t| == 0
    ensures StatusOf(t) == FAILED
  {
    forall w: string | w != "" ensures !Contains(t, w) {
      ContainsIff(t, w);
    }
    assert !Refusal(t) by {
      AbsentWordsNoRefusal(t);
    }
    assert !(exists i :: 0 <= i <= |t| && Boundary(t, i));
    assert !WordThenPay(t, ASSENTS);
  }

  /** Whatever was said before it, a transcript ending in "later" is a delay or a refusal: it needs a follow-up. */
  lemma LaterNeedsFollowUp(s: string)
    ensures ClassifyTranscript(Some(s + " later")).status == NEED_FOLLOW_UP
  {
    LaterIsLower(" later");
    NormalizedKeepsEnding(s, " later", "later");
    assert "later" in DELAY_WORDS;
  }

  /** A lower-case ending with no whitespace at either edge survives normalization. */
  lemma NormalizedKeepsEnding(s: string, tail: string, w: string)
    requires Lower(tail) == tail && EndsWith(tail, w)
    requires 0 < |w| && !IsSpace(w[0]) && !IsSpace(w[|w| - 1])
    ensures Contains(Normalized(Some(s + tail)), w)
  {
    var x := Lower(s) + tail;
    NormalizedAppend(s, tail);
    EndsWithPrefixed(Lower(s), tail, w);
    StripKeepsEnding(x, w);
    EndsWithContains(Strip(x), w);
  }

  lemma LaterIsLower(tail: string)
    requires tail == " later"
    ensures Lower(tail) == tail
  {
    forall k | 0 <= k < |tail| ensures Lower(tail)[k] == tail[k] {}
  }

  /** Appending text that is already lower case commutes with lower-casing. */
  lemma NormalizedAppend(s: string, tail: string)
    requires Lower(tail) == tail
    ensures Normalized(Some(s + tail)) == Strip(Lower(s) + tail)
  {
    LowerConcat(s, tail);
  }

  /** An appended note keeps the earlier notes in front and ends with the new message. */
  lemma NotesOnlyGrow(notes: Option<string>, message: string)
    ensures notes.Some? ==> notes.value <= AppendNote(notes, message)
    ensures EndsWith(AppendNote(notes, message), message)
  {
    if notes.Some? && notes.value != "" {
      assert AppendNote(notes, message) == notes.value + ("\n" + message);
      EndsWithConcat(notes.value + "\n", message);
      assert notes.value + "\n" + message == (notes.value + "\n") + message;
    } else {
      EndsWithConcat("", message);
      assert "" + message == message;
    }
  }

  /** Two call requests in a row leave both messages in the notes, oldest first, a line apart. */
  lemma CallNotesAccumulate(notes: Option<string>, first: string, second: string)
    requires first != ""
    ensures AppendNote(Some(AppendNote(notes, first)), second) == AppendNote(notes, first) + "\n" + second
  {
  }

  /**
   * For customer id 0 the upload is recorded against the lowest-id customer
   * still 'Pending', and against nobody when no customer is pending.
   */
  lemma ZeroPicksFirstPending(rows: Rows, nextId: int)
    requires WellFormed(rows, nextId)
    ensures var chosen := ChosenId(0, Where(rows, 1, nextId, IsPending));
      && (chosen.None? <==> forall id :: id in rows ==> rows[id].callStatus != PENDING)
      && (chosen.Some? ==>
            && chosen.value in rows && rows[chosen.value].callStatus == PENDING
            && forall id :: id in rows && id < chosen.value ==> rows[id].callStatus != PENDING)
  {
    var pending := Where(rows, 1, nextId, IsPending);
    forall id | id in rows
      ensures IsPending(rows[id]) ==> rows[id] in pending
    {
    }
    if pending != [] {
      assert pending[0] in pending;
      forall id | id in rows && id < pending[0].id
        ensures rows[id].callStatus != PENDING
      {
        if IsPending(rows[id]) {
          FirstIsLowest(pending, rows[id]);
        }
      }
    }
  }

  /** In a list in ascending id order, no member has a lower id than the first. */
  lemma FirstIsLowest(cs: seq<Customer>, c: Customer)
    requires forall i, j :: 0 <= i < j < |cs| ==> cs[i].id < cs[j].id
    requires c in cs
    ensures cs[0].id <= c.id
  {
    var j :| 0 <= j < |cs| && cs[j] == c;
    if j > 0 {
      assert cs[0].id < cs[j].id;
    }
  }
}
