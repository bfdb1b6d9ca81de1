/**
 * The stage registry (src/models/Stage/stage.ts): the five competition
 * stages, their stored records, and the `getPreviousStage` query, which
 * orders stages by the STRING value of their kind, as the document store's
 * `$lt` filter and descending sort do.
 */
module StageModel {
  import opened Common

  datatype Kind = Registration | Submission | Qualifiers | Finals | Results

  /** The value stored in a stage document's `stage` field. */
  function KindName(k: Kind): string {
    match k
    case Registration => "registration"
    case Submission => "submission"
    case Qualifiers => "qualifiers"
    case Finals => "finals"
    case Results => "results"
  }

  /**
   * The schema's enum check on the `stage` field: a stored string is accepted
   * exactly when it is the name of one of the five kinds.
   */
  function ParseKind(s: string): (r: Option<Kind>)
    ensures r.Some? ==> KindName(r.value) == s
    ensures r.None? <==> forall k :: KindName(k) != s
  {
    if s == "registration" then Some(Registration)
    else if s == "submission" then Some(Submission)
    else if s == "qualifiers" then Some(Qualifiers)
    else if s == "finals" then Some(Finals)
    else if s == "results" then Some(Results)
    else None
  }

  /** Parsing the stored name of a kind gives that kind back. */
  lemma ParseKindName(k: Kind)
    ensures ParseKind(KindName(k)) == Some(k)
  {
    assert KindName(k) == KindName(ParseKind(KindName(k)).value);
  }

  /** Lexicographic order on strings, character by character (a proper prefix is smaller). */
  predicate StringLess(a: string, b: string) {
    if |b| == 0 then false
    else if |a| == 0 then true
    else if a[0] != b[0] then a[0] < b[0]
    else StringLess(a[1..], b[1..])
  }

  /** `a` sorts below `b` in the registry's order: the string order of the names. */
  predicate KindBelow(a: Kind, b: Kind) {
    StringLess(KindName(a), KindName(b))
  }

  /** Place of a kind when the five names are sorted as strings. */
  function LexRank(k: Kind): nat {
    match k
    case Finals => 0
    case Qualifiers => 1
    case Registration => 2
    case Results => 3
    case Submission => 4
  }

  /**
   * The string order of the kinds is finals < qualifiers < registration <
   * results < submission, and not the order in which the enum declares them.
   */
  lemma KindBelowIsLexRank(a: Kind, b: Kind)
    ensures KindBelow(a, b) <==> LexRank(a) < LexRank(b)
  {
    var x, y := KindName(a), KindName(b);
    if a == b {
      StringLessIrreflexive(x);
    } else if x[0] != y[0] {
    } else if a == Registration {
      assert b == Results;
      assert x[1..][1..][0] == 'g' && y[1..][1..][0] == 's';
    } else {
      assert a == Results && b == Registration;
      assert x[1..][1..][0] == 's' && y[1..][1..][0] == 'g';
    }
  }

  lemma {:induction false} StringLessIrreflexive(s: string)
    ensures !StringLess(s, s)
  {
    if |s| > 0 {
      StringLessIrreflexive(s[1..]);
    }
  }

  /** A stored stage document. Dates are milliseconds since the epoch. */
  datatype StageRec = StageRec(
    id: Id,
    kind: Kind,
    name: string,
    description: string,
    active: bool,
    startDate: int,
    endDate: int)

  /** A stage created without an explicit `active` flag: the schema default is false. */
  function NewStage(id: Id, kind: Kind, name: string, description: string, startDate: int, endDate: int): (s: StageRec)
    ensures !s.active
    ensures s.id == id && s.kind == kind && s.startDate == startDate && s.endDate == endDate
  {
    StageRec(id, kind, name, description, false, startDate, endDate)
  }

  /** Stage ids are unique in the collection (they are `_id`s). */
  ghost predicate UniqueIds(stages: seq<StageRec>) {
    forall i, j :: 0 <= i < |stages| && 0 <= j < |stages| && stages[i].id == stages[j].id ==> i == j
  }

  /** `Stage.findOne({ _id: id })`. */
  function FindById(stages: seq<StageRec>, id: Id): (r: Option<StageRec>)
    ensures r.Some? ==> r.value in stages && r.value.id == id
    ensures r.None? <==> forall s :: s in stages ==> s.id != id
  {
    match First(stages, (s: StageRec) => s.id == id)
    case None => None
    case Some(i) => Some(stages[i])
  }

  /** `Stage.findOne({ stage: kind })`: the first stored stage of that kind. */
  function FindByKind(stages: seq<StageRec>, kind: Kind): (r: Option<StageRec>)
    ensures r.Some? ==> r.value in stages && r.value.kind == kind
    ensures r.None? <==> forall s :: s in stages ==> s.kind != kind
  {
    match First(stages, (s: StageRec) => s.kind == kind)
    case None => None
    case Some(i) => Some(stages[i])
  }

  /** A stage that opens the submission window at time `now`. */
  predicate WindowOpen(s: StageRec, now: int) {
    s.kind == Submission && s.endDate >= now
  }

  /**
   * `Stage.findOne({ stage: SUBMISSION, end_date: { $gte: now } })`, the query
   * shared by progress creation and the registration gate.
   */
  function OpenSubmissionStage(stages: seq<StageRec>, now: int): (r: Option<StageRec>)
    ensures r.Some? ==> r.value in stages && WindowOpen(r.value, now)
    ensures r.None? <==> forall s :: s in stages ==> !WindowOpen(s, now)
  {
    match First(stages, (s: StageRec) => WindowOpen(s, now))
    case None => None
    case Some(i) => Some(stages[i])
  }

  /**
   * `getPreviousStage` on a stage of kind `k`: among the stored stages whose
   * kind sorts strictly below `k`, one of the greatest kind; of several such,
   * the first in the collection's natural order.
   */
  function PreviousStage(stages: seq<StageRec>, k: Kind): (r: Option<StageRec>)
    ensures r.None? <==> forall s :: s in stages ==> !KindBelow(s.kind, k)
    ensures r.Some? ==> r.value in stages && KindBelow(r.value.kind, k)
    ensures r.Some? ==> forall s :: s in stages && KindBelow(s.kind, k) ==> !KindBelow(r.value.kind, s.kind)
  {
    if |stages| == 0 then None
    else
      var rest := PreviousStage(stages[1..], k);
      var s := stages[0];
      KindOrder();
      assert forall t :: t in stages <==> t == s || t in stages[1..];
      if !KindBelow(s.kind, k) then rest
      else if rest.Some? && KindBelow(s.kind, rest.value.kind) then rest
      else Some(s)
  }

  /** Every comparison of kinds is a comparison of their lexical ranks. */
  lemma KindOrder()
    ensures forall a, b :: KindBelow(a, b) <==> LexRank(a) < LexRank(b)
  {
    forall a, b ensures KindBelow(a, b) <==> LexRank(a) < LexRank(b) {
      KindBelowIsLexRank(a, b);
    }
  }

  /** The returned stage is never of the receiver's own kind. */
  lemma PreviousStageOtherKind(stages: seq<StageRec>, k: Kind)
    ensures PreviousStage(stages, k).Some? ==> PreviousStage(stages, k).value.kind != k
  {
    KindBelowIsLexRank(k, k);
  }

  /** "finals" is the smallest name, so a finals stage has no predecessor. */
  lemma FinalsHasNoPredecessor(stages: seq<StageRec>)
    ensures PreviousStage(stages, Finals) == None
  {
    forall s | s in stages ensures !KindBelow(s.kind, Finals) {
      KindBelowIsLexRank(s.kind, Finals);
    }
  }

  /**
   * "results" is the greatest name below "submission", so a submission stage's
   * predecessor is a results stage whenever one is stored.
   */
  lemma SubmissionPredecessorIsResults(stages: seq<StageRec>)
    requires exists s :: s in stages && s.kind == Results
    ensures PreviousStage(stages, Submission).Some?
    ensures PreviousStage(stages, Submission).value.kind == Results
  {
    var s :| s in stages && s.kind == Results;
    KindBelowIsLexRank(Results, Submission);
    var r := PreviousStage(stages, Submission).value;
    KindBelowIsLexRank(r.kind, s.kind);
    KindBelowIsLexRank(r.kind, Submission);
  }

  /** In the string order the predecessor of registration is qualifiers, then finals. */
  lemma RegistrationPredecessor(stages: seq<StageRec>)
    requires exists s :: s in stages && s.kind == Qualifiers
    ensures PreviousStage(stages, Registration).Some?
    ensures PreviousStage(stages, Registration).value.kind == Qualifiers
  {
    var s :| s in stages && s.kind == Qualifiers;
    KindBelowIsLexRank(Qualifiers, Registration);
    var r := PreviousStage(stages, Registration).value;
    KindBelowIsLexRank(r.kind, s.kind);
    KindBelowIsLexRank(r.kind, Registration);
  }
}
