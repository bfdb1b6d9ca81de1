/**
 * `registrationStoppedMiddleware` (src/middlewares/registrationStopped.middleware.ts):
 * reads always pass; any other request passes only while a submission stage
 * is still open.
 */
module RegistrationGate {
  import opened Common
  import opened StageModel
  import opened ProgressModel

  /**
   * The gate for an HTTP method at time `now`. The method name is
   * lower-cased (ASCII only) and compared with "get"; otherwise the
   * submission-window query decides, and a closed window is a 403.
   */
  function RegistrationGate(httpMethod: string, stages: seq<StageRec>, now: int): (r: Outcome)
    ensures Lower(httpMethod) == "get" ==> r.Pass?
    ensures Lower(httpMethod) != "get" ==> (r.Pass? <==> exists s :: s in stages && WindowOpen(s, now))
    ensures r.Fail? ==> r.error == Forbidden
  {
    if Lower(httpMethod) == "get" then Pass
    else if OpenSubmissionStage(stages, now).None? then Fail(Forbidden)   // "submission deadline has passed"
    else Pass
  }

  /** An ASCII lower-case letter is the lower case of itself and of its upper case only. */
  lemma LowerCharIs(c: char, lo: char)
    requires IsLower(lo)
    ensures LowerChar(c) == lo <==> c == lo || c == (lo as int - 32) as char
  {
  }

  /** One of the eight case variants of "get". */
  predicate SpellsGet(m: string) {
    |m| == 3 && (m[0] == 'g' || m[0] == 'G') && (m[1] == 'e' || m[1] == 'E') && (m[2] == 't' || m[2] == 'T')
  }

  /**
   * The read test accepts exactly the eight spellings of "get" that differ
   * only in case, and every one of them passes whatever the stages.
   */
  lemma ReadsPass(httpMethod: string, stages: seq<StageRec>, now: int)
    ensures Lower(httpMethod) == "get" <==> SpellsGet(httpMethod)
    ensures SpellsGet(httpMethod) ==> RegistrationGate(httpMethod, stages, now).Pass?
  {
    var l := Lower(httpMethod);
    if |httpMethod| == 3 {
      LowerCharIs(httpMethod[0], 'g');
      LowerCharIs(httpMethod[1], 'e');
      LowerCharIs(httpMethod[2], 't');
      assert l == "get" <==> l[0] == 'g' && l[1] == 'e' && l[2] == 't';
    }
  }

  /**
   * The gate and `createInitialProgress` ask the same question: a write
   * passes exactly when a new team's first progress record can be created.
   */
  lemma GateAgreesWithInitialProgress(httpMethod: string, stages: seq<StageRec>, team: Id, now: int)
    requires Lower(httpMethod) != "get"
    ensures RegistrationGate(httpMethod, stages, now).Pass? <==> InitialProgress(stages, team, now).Ok?
  {
  }
}
