/**
 * src/outcome_agent.py: the outcome classifier and `process_customer`, which
 * writes the classified outcome to the customer table. The language-model
 * completion is an oracle from the transcript to what became of the request.
 */
module Outcomes {
  import opened Wrappers
  import opened Text
  import opened CustomerStore
  import Dialogue

  const SUCCESSFUL := "SUCCESSFUL"
  const NEED_FOLLOW_UP := "NEED FOLLOW UP"
  const FAILED := "FAILED"

  /** The keyword lists of the heuristic; the last follow-up word is spelt "probelm". */
  const AFFIRMATIVE_WORDS: seq<string> := ["yes", "pay", "sure", "okay"]
  const FOLLOW_UP_WORDS: seq<string> := ["no", "can't", "later", "probelm"]

  /** A JSON object as far as the outcome is read: string keys to string values. */
  type Json = map<string, string>

  /** The completion call raised, or its content did not parse as JSON, or it parsed to an object. */
  datatype LlmOutcome = Raised | Unparseable | Parsed(json: Json)

  /** Why `process_customer` raised: the completion failed, or the outcome lacked a key it reads. */
  datatype OutcomeError = CompletionRaised | MissingKey(key: string)

  function Outcome(status: string, notes: string): Json {
    map["status" := status, "notes" := notes]
  }

  /** The keyword branch of `classify_response`: affirmative words first, then follow-up words. */
  function Heuristic(transcript: string): (r: Json)
    ensures r.Keys == {"status", "notes"} && r["notes"] == transcript
    ensures r["status"] in {SUCCESSFUL, NEED_FOLLOW_UP, FAILED}
    ensures r["status"] == SUCCESSFUL <==> ContainsAny(Lower(transcript), AFFIRMATIVE_WORDS)
    ensures r["status"] == NEED_FOLLOW_UP <==>
      !ContainsAny(Lower(transcript), AFFIRMATIVE_WORDS) && ContainsAny(Lower(transcript), FOLLOW_UP_WORDS)
  {
    var t := Lower(transcript);
    if ContainsAny(t, AFFIRMATIVE_WORDS) then Outcome(SUCCESSFUL, transcript)
    else if ContainsAny(t, FOLLOW_UP_WORDS) then Outcome(NEED_FOLLOW_UP, transcript)
    else Outcome(FAILED, transcript)
  }

  class OutcomeAgent {
    const useGroq: bool
    const complete: string -> LlmOutcome
    /** The agent's own connection to the customer table. */
    const db: Database

    constructor (useGroq: bool, complete: string -> LlmOutcome, db: Database)
      ensures this.useGroq == useGroq && this.complete == complete && this.db == db
    {
      this.useGroq := useGroq;
      this.complete := complete;
      this.db := db;
    }

    /**
     * `classify_response`. Without the language model, and when its answer does
     * not parse, the outcome is one of the three statuses with the transcript,
     * verbatim, as notes; a raising completion call propagates.
     */
    function ClassifyResponse(transcript: string): (r: Result<Json, OutcomeError>)
      ensures r.Err? <==> useGroq && complete(transcript).Raised?
      ensures r.Err? ==> r.error == CompletionRaised
      ensures !useGroq || complete(transcript).Unparseable? ==>
        && r.Ok? && r.value.Keys == {"status", "notes"} && r.value["notes"] == transcript
        && r.value["status"] in {SUCCESSFUL, NEED_FOLLOW_UP, FAILED}
      ensures !useGroq ==> r == Ok(Heuristic(transcript))
      ensures useGroq && complete(transcript).Unparseable? ==> r.value["status"] == FAILED
      ensures useGroq && complete(transcript).Parsed? ==> r == Ok(complete(transcript).json)
    {
      if !useGroq then Ok(Heuristic(transcript))
      else
        match complete(transcript)
        case Raised => Err(CompletionRaised)
        case Unparseable => Ok(Outcome(FAILED, transcript))
        case Parsed(json) => Ok(json)
    }

    /**
     * `process_customer`: the classified status and notes are written to the
     * customer's row and the outcome is returned. An outcome without "status"
     * or "notes" raises before anything is written.
     */
    method ProcessCustomer(transcript: string, customerId: int) returns (r: Result<Json, OutcomeError>)
      requires db.Valid()
      modifies db
      ensures db.Valid() && db.nextId == old(db.nextId)
      ensures var c := ClassifyResponse(transcript);
        && (c.Err? ==> r == c)
        && (c.Ok? && "status" !in c.value ==> r == Err(MissingKey("status")))
        && (c.Ok? && "status" in c.value && "notes" !in c.value ==> r == Err(MissingKey("notes")))
        && (c.Ok? && "status" in c.value && "notes" in c.value ==> r == c)
      ensures r.Err? ==> db.rows == old(db.rows)
      ensures r.Ok? ==>
        && r == ClassifyResponse(transcript) && "status" in r.value && "notes" in r.value
        && db.rows == Logged(old(db.rows), customerId, r.value["status"], r.value["notes"])
    {
      var outcome := ClassifyResponse(transcript);
      if outcome.Err? {
        return outcome;
      }
      if "status" !in outcome.value {
        return Err(MissingKey("status"));
      }
      if "notes" !in outcome.value {
        return Err(MissingKey("notes"));
      }
      db.LogCallOutcome(customerId, outcome.value["status"], outcome.value["notes"]);
      r := outcome;
    }
  }

  /** An affirmative word outranks the follow-up words: "No, I can't pay" is a success. */
  lemma AffirmativeFirst()
    ensures Heuristic("No, I can't pay")["status"] == SUCCESSFUL
  {
    var t := Lower("No, I can't pay");
    assert t[12..15] == "pay";
    OccursContains(t, "pay", 12);
    assert "pay" in AFFIRMATIVE_WORDS;
  }

  /**
   * Because of the spelling "probelm", the word "problem" on its own is no
   * follow-up here, although the dialogue classifier reads it as a refusal.
   */
  lemma ProblemIsNoFollowUp(transcript: string)
    requires Dialogue.SaysProblem(Lower(transcript))
    ensures Heuristic(transcript)["status"] == FAILED
    ensures Dialogue.KeywordIntent(transcript) == Dialogue.REFUSES_TO_PAY
  {
    var t := Lower(transcript);
    Dialogue.ProblemRefuses(transcript);
    Dialogue.ProblemHasNoAffirmative(t);
    assert AFFIRMATIVE_WORDS == Dialogue.AFFIRMATIVE_WORDS;
    ProblemHasNoFollowUp(t);
  }

  lemma ProblemHasNoFollowUp(t: string)
    requires Dialogue.SaysProblem(t)
    ensures !ContainsAny(t, FOLLOW_UP_WORDS)
  {
    Dialogue.NoOccurrence(t, "no");
    Dialogue.NoOccurrence(t, "can't");
    Dialogue.NoOccurrence(t, "later");
    assert t[0..7][4] != "probelm"[4];
    Dialogue.NoOccurrence(t, "probelm");
  }

  /** The heuristic reports a success exactly when the dialogue classifier hears an agreement. */
  lemma SuccessIsAgreement(transcript: string)
    ensures Heuristic(transcript)["status"] == SUCCESSFUL
        <==> Dialogue.KeywordIntent(transcript) == Dialogue.AGREES_TO_PAY
  {
    assert AFFIRMATIVE_WORDS == Dialogue.AFFIRMATIVE_WORDS;
  }

  /**
   * Apart from the spelling of "problem", the follow-up words are the dialogue
   * classifier's refusal words: where neither spelling occurs, a follow-up is a refusal.
   */
  lemma FollowUpIsRefusal(transcript: string)
    requires !Contains(Lower(transcript), "problem") && !Contains(Lower(transcript), "probelm")
    ensures Heuristic(transcript)["status"] == NEED_FOLLOW_UP
        <==> Dialogue.KeywordIntent(transcript) == Dialogue.REFUSES_TO_PAY
  {
    var t := Lower(transcript);
    assert AFFIRMATIVE_WORDS == Dialogue.AFFIRMATIVE_WORDS;
    if ContainsAny(t, FOLLOW_UP_WORDS) {
      var w :| w in FOLLOW_UP_WORDS && Contains(t, w);
      assert w in Dialogue.REFUSAL_WORDS;
    }
    if ContainsAny(t, Dialogue.REFUSAL_WORDS) {
      var w :| w in Dialogue.REFUSAL_WORDS && Contains(t, w);
      assert w in FOLLOW_UP_WORDS;
    }
  }
}
