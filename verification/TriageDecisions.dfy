/**
 From evidence to disposition (internal/mailtriage/hybrid.go, engine.go): a local decision, possibly a semantic
 one, their combination, and what the policy makes of it. Confidences and factors are exact reals; reasons
 and signals are left out.
 */
module TriageDecisions {
  import opened Text

  /** Other is any string that is not one of the four actions. */
  datatype Action = Inbox | Cc | Archive | Trash | Other

  datatype Factors = Factors(spam: real, actionRequired: real, skim: real, reference: real, staleness: real)

  datatype Origin = Deterministic | LocalFactors | Hybrid | External

  datatype Decision = Decision(action: Action, archiveLabel: string, confidence: real, origin: Origin, factors: Factors)

  /** What is known of a message: whether it is flagged, on a protected topic, and the rule that matches it. */
  datatype Evidence = Evidence(flagged: bool, isProtected: bool, rule: Option<Action>, factors: Factors)

  function Max(a: real, b: real): real {
    if a > b then a else b
  }

  function Clamp(v: real): (r: real)
    ensures 0.0 <= r <= 1.0 && (0.0 <= v <= 1.0 ==> r == v)
  {
    if v < 0.0 then 0.0 else if v > 1.0 then 1.0 else v
  }

  predicate InRange(f: Factors) {
    && 0.0 <= f.spam <= 1.0 && 0.0 <= f.actionRequired <= 1.0 && 0.0 <= f.skim <= 1.0
    && 0.0 <= f.reference <= 1.0 && 0.0 <= f.staleness <= 1.0
  }

  /** normalizeDecision */
  function Normalize(d: Decision): Decision {
    Decision(if d.action == Other then Inbox else d.action, TrimSpace(d.archiveLabel), Clamp(d.confidence), d.origin,
             Factors(Clamp(d.factors.spam), Clamp(d.factors.actionRequired), Clamp(d.factors.skim),
                     Clamp(d.factors.reference), Clamp(d.factors.staleness)))
  }

  function Local(action: Action, confidence: real, f: Factors): Decision {
    Decision(action, "", confidence, LocalFactors, f)
  }

  function CombineFactors(e: Evidence): Decision {
    var f := e.factors;
    if e.flagged then Local(Inbox, Max(0.94, f.actionRequired), f)
    else if f.actionRequired >= 0.72 then Local(Inbox, Clamp(0.60 + 0.40 * f.actionRequired), f)
    else if !e.isProtected && f.spam >= 0.97 then Local(Trash, Clamp(0.75 + 0.25 * f.spam), f)
    else if f.skim >= 0.62 then Local(Cc, Clamp(0.55 + 0.35 * f.skim + 0.10 * (1.0 - f.actionRequired)), f)
    else if f.reference >= 0.58 || e.isProtected then
      Local(Archive, Clamp(0.52 + 0.33 * Max(f.reference, 0.4) + 0.10 * (1.0 - f.actionRequired)), f)
    else if f.staleness >= 0.72 && f.actionRequired < 0.45 then Local(Trash, Clamp(0.55 + 0.35 * f.staleness), f)
    else if !e.isProtected && f.spam >= 0.80 && f.actionRequired < 0.35 then
      Local(Trash, Clamp(0.50 + 0.30 * f.spam), f)
    else Local(Inbox, Clamp(0.55 + 0.25 * f.actionRequired), f)
  }

  function LocalDecision(e: Evidence): Decision {
    match e.rule
    case Some(action) => Normalize(Decision(action, "", 0.995, Deterministic, e.factors))
    case None => Normalize(CombineFactors(e))
  }

  predicate SkipSemantic(local: Decision, e: Evidence) {
    || local.origin == Deterministic
    || (local.action == Trash && local.confidence >= 0.995 && !e.isProtected)
    || (local.confidence >= 0.97 && !e.isProtected)
  }

  function CombineHybrid(e: Evidence, local: Decision, semantic: Decision): Decision {
    if local.action == semantic.action then
      Normalize(local.(confidence := Max(local.confidence, semantic.confidence), origin := Hybrid))
    else if e.isProtected && (local.action == Trash || semantic.action == Trash) then
      Normalize(Decision(Archive, "", Max(local.confidence, semantic.confidence) * 0.85, Hybrid, local.factors))
    else if local.action == Inbox && local.factors.actionRequired >= 0.75 then
      Normalize(local.(confidence := Max(local.confidence, 0.92), origin := Hybrid))
    else if semantic.confidence >= local.confidence + 0.15 then
      Normalize(semantic.(origin := Hybrid, factors := local.factors))
    else Normalize(local.(origin := Hybrid))
  }

  /** The semantic classifier: there may be none, it may fail, and it may answer anything. */
  datatype Semantic = NoClassifier | Fails | Answers(d: Decision)

  /** HybridClassifier.Classify; None is an error. */
  function Classify(e: Evidence, semantic: Semantic): Option<Decision> {
    var local := LocalDecision(e);
    if semantic.NoClassifier? || SkipSemantic(local, e) then Some(local)
    else if semantic.Fails? then None
    else Some(CombineHybrid(e, local, Normalize(semantic.d).(factors := local.factors)))
  }

  // ----- what no training and no answer can change -----

  lemma ProtectedLocally(e: Evidence)
    requires e.isProtected && e.rule.None?
    ensures LocalDecision(e).action != Trash && LocalDecision(e).origin == LocalFactors
  {
  }

  lemma ProtectedCombined(e: Evidence, local: Decision, semantic: Decision)
    requires e.isProtected && local.action != Trash
    ensures CombineHybrid(e, local, semantic).action != Trash
  {
  }

  /** A message on a protected topic is classified as trash exactly when a rule says so. */
  lemma ProtectedIsTrashIff(e: Evidence, semantic: Semantic)
    requires e.isProtected && Classify(e, semantic).Some?
    ensures Classify(e, semantic).value.action == Trash <==> e.rule == Some(Trash)
  {
    if e.rule.None? {
      var local := LocalDecision(e);
      ProtectedLocally(e);
      if semantic.Answers? && !SkipSemantic(local, e) {
        ProtectedCombined(e, local, Normalize(semantic.d).(factors := local.factors));
      }
    }
  }

  lemma FlaggedLocally(e: Evidence)
    requires e.flagged && e.rule.None?
    ensures LocalDecision(e).action == Inbox && LocalDecision(e).confidence >= 0.94
  {
  }

  /**
   Without a rule, flagged mail stays in the inbox, except on a protected topic when the semantic classifier
   wants to trash it: then it is archived.
   */
  lemma FlaggedStaysUnless(e: Evidence, semantic: Semantic)
    requires e.flagged && e.rule.None? && Classify(e, semantic).Some?
    ensures var away := e.isProtected && semantic.Answers? && semantic.d.action == Trash;
            Classify(e, semantic).value.action == if away then Archive else Inbox
  {
    FlaggedLocally(e);
  }

  /** Without a rule, a message that clearly needs action stays in the inbox, with the same one exception. */
  lemma UrgentStaysUnless(e: Evidence, semantic: Semantic)
    requires e.rule.None? && !e.flagged && 0.75 <= e.factors.actionRequired <= 1.0
    requires Classify(e, semantic).Some?
    ensures var away := e.isProtected && semantic.Answers? && semantic.d.action == Trash
                        && !SkipSemantic(LocalDecision(e), e);
            Classify(e, semantic).value.action == if away then Archive else Inbox
  {
  }

  /** Where an answer prevails over the local decision, the same answer prevails with more confidence. */
  lemma MoreConfidentAnswerPrevails(e: Evidence, d: Decision, confidence: real)
    requires confidence >= d.confidence && !SkipSemantic(LocalDecision(e), e)
    requires Classify(e, Answers(d)).value.action == Normalize(d).action
    ensures Classify(e, Answers(d.(confidence := confidence))).value.action == Normalize(d).action
  {
    var local, semantic := LocalDecision(e), Normalize(d).(factors := LocalDecision(e).factors);
    var surer := semantic.(confidence := Clamp(confidence));
    assert Normalize(d.(confidence := confidence)).(factors := local.factors) == surer;
    CombinedPrevails(e, local, semantic, surer);
  }

  lemma CombinedPrevails(e: Evidence, local: Decision, semantic: Decision, surer: Decision)
    requires surer.action == semantic.action != Other && local.action != Other
    requires surer.confidence >= semantic.confidence
    requires CombineHybrid(e, local, semantic).action == semantic.action
    ensures CombineHybrid(e, local, surer).action == semantic.action
  {
  }

  // ----- policy -----

  datatype Phase = Shadow | ManualReview | AutoApply

  datatype Policy = Policy(
    phase: Phase, reviewOnDisagreement: bool, thresholds: map<Action, real>, manualActions: set<Action>)

  const DEFAULT_THRESHOLDS: map<Action, real> := map[Cc := 0.90, Archive := 0.93, Trash := 0.98]

  /** What the engine is configured with: no phase is the empty string, manual actions may not be given. */
  datatype Configured = Configured(
    phase: Option<Phase>, reviewOnDisagreement: bool, thresholds: map<Action, real>, manualActions: Option<set<Action>>)

  /** The policy that Evaluate works with. */
  function Effective(c: Configured): Policy {
    Policy(if c.phase.Some? then c.phase.value else ManualReview,
           c.reviewOnDisagreement || c.phase.None?,
           if |c.thresholds| > 0 then c.thresholds else DEFAULT_THRESHOLDS,
           if c.manualActions.Some? then c.manualActions.value else {})
  }

  datatype Reason = InvalidAction | LowConfidence | ManualReviewPhase | ManualAction | AuditDisagreement

  datatype Disposition = Shadowed | Review | Applied | Noop

  datatype Evaluation = Evaluation(primary: Decision, audit: Option<Decision>, reasons: seq<Reason>, disposition: Disposition)

  predicate Disagrees(primary: Decision, audit: Option<Decision>) {
    audit.Some? && (primary.action != audit.value.action
                    || Lower(TrimSpace(primary.archiveLabel)) != Lower(TrimSpace(audit.value.archiveLabel)))
  }

  predicate TooUncertain(p: Policy, d: Decision) {
    d.action != Inbox && d.action in p.thresholds && d.confidence < p.thresholds[d.action]
  }

  predicate Applies(r: Reason, p: Policy, primary: Decision, audit: Option<Decision>) {
    match r
    case InvalidAction => primary.action == Other
    case LowConfidence => TooUncertain(p, primary)
    case ManualReviewPhase => p.phase == ManualReview
    case ManualAction => primary.action in p.manualActions
    case AuditDisagreement => p.reviewOnDisagreement && Disagrees(primary, audit)
  }

  /** The reasons for a review: those that apply, each once, and none in the shadow phase. */
  ghost predicate ReasonsFor(reasons: seq<Reason>, p: Policy, primary: Decision, audit: Option<Decision>) {
    && (forall r :: r in reasons <==> p.phase != Shadow && Applies(r, p, primary, audit))
    && (forall i, j :: 0 <= i < j < |reasons| ==> reasons[i] != reasons[j])
  }

  /** The first reasons of reviewReasons: those that the decision itself gives. */
  method DecisionReasons(p: Policy, primary: Decision) returns (reasons: seq<Reason>)
    ensures forall r :: r in reasons <==>
              (r == InvalidAction && primary.action == Other) || (r == LowConfidence && TooUncertain(p, primary))
    ensures forall i, j :: 0 <= i < j < |reasons| ==> reasons[i] != reasons[j]
  {
    reasons := [];
    if primary.action == Other {
      reasons := reasons + [InvalidAction];
    }
    if primary.action != Inbox {
      if primary.action in p.thresholds && primary.confidence < p.thresholds[primary.action] {
        reasons := reasons + [LowConfidence];
      }
    }
  }

  /** And those that the policy gives. */
  method PolicyReasons(manualPhase: bool, manual: bool, disagree: bool) returns (reasons: seq<Reason>)
    ensures forall r :: r in reasons <==>
              (r == ManualReviewPhase && manualPhase) || (r == ManualAction && manual) || (r == AuditDisagreement && disagree)
    ensures forall i, j :: 0 <= i < j < |reasons| ==> reasons[i] != reasons[j]
  {
    reasons := [];
    if manualPhase {
      reasons := reasons + [ManualReviewPhase];
    }
    if manual {
      reasons := reasons + [ManualAction];
    }
    if disagree {
      reasons := reasons + [AuditDisagreement];
    }
  }

  lemma BothListed(a: seq<Reason>, b: seq<Reason>)
    requires forall i, j :: 0 <= i < j < |a| ==> a[i] != a[j]
    requires forall i, j :: 0 <= i < j < |b| ==> b[i] != b[j]
    requires forall r :: r in a ==> r !in b
    ensures forall i, j :: 0 <= i < j < |a + b| ==> (a + b)[i] != (a + b)[j]
    ensures forall r :: r in a + b <==> r in a || r in b
  {
    assert forall i :: 0 <= i < |a| ==> a[i] in a;
    assert forall i :: 0 <= i < |b| ==> b[i] in b;
  }

  /** reviewReasons */
  method ReviewReasons(p: Policy, primary: Decision, audit: Option<Decision>) returns (reasons: seq<Reason>)
    ensures ReasonsFor(reasons, p, primary, audit)
  {
    reasons := [];
    if p.phase == Shadow {
      return;
    }
    reasons := DecisionReasons(p, primary);
    var more := PolicyReasons(p.phase == ManualReview, primary.action in p.manualActions,
                              p.reviewOnDisagreement && Disagrees(primary, audit));
    BothListed(reasons, more);
    reasons := reasons + more;
  }

  /** When a message is acted on without being shown to the user first. */
  predicate ActsAlone(p: Policy, primary: Decision, audit: Option<Decision>) {
    && p.phase == AutoApply && primary.action != Inbox && primary.action != Other
    && !TooUncertain(p, primary) && primary.action !in p.manualActions
    && !(p.reviewOnDisagreement && Disagrees(primary, audit))
  }

  /** disposition, given the reasons for a review. */
  method Dispose(p: Policy, primary: Decision, audit: Option<Decision>, reasons: seq<Reason>)
    returns (disposition: Disposition)
    requires ReasonsFor(reasons, p, primary, audit)
    ensures disposition == Shadowed <==> p.phase == Shadow
    ensures disposition == Review <==> reasons != []
    ensures disposition == Applied <==> ActsAlone(p, primary, audit)
  {
    assert p.phase == ManualReview ==> ManualReviewPhase in reasons;
    assert reasons != [] ==> reasons[0] in reasons;
    assert reasons == [] ==> InvalidAction !in reasons && LowConfidence !in reasons && ManualAction !in reasons
                             && AuditDisagreement !in reasons;
    match p.phase {
      case Shadow =>
        return Shadowed;
      case ManualReview =>
        return Review;
      case AutoApply =>
        if |reasons| > 0 {
          return Review;
        }
        if primary.action == Inbox {
          return Noop;
        }
        return Applied;
    }
  }

  function Normalized(second: Option<Decision>): Option<Decision> {
    match second
    case None => None
    case Some(d) => Some(Normalize(d))
  }

  /** What an evaluation of one message has to be, given what the two classifiers answered. */
  ghost predicate Evaluated(eval: Evaluation, p: Policy, answer: Decision, second: Option<Decision>) {
    && eval.primary == Normalize(answer) && eval.audit == Normalized(second)
    && ReasonsFor(eval.reasons, p, eval.primary, eval.audit)
    && (eval.disposition == Shadowed <==> p.phase == Shadow)
    && (eval.disposition == Review <==> eval.reasons != [])
    && (eval.disposition == Applied <==> ActsAlone(p, eval.primary, eval.audit))
  }

  /** An evaluation is determined by the policy and the answers, up to the order of its reasons. */
  lemma EvaluatedOnce(a: Evaluation, b: Evaluation, p: Policy, answer: Decision, second: Option<Decision>)
    requires Evaluated(a, p, answer, second) && Evaluated(b, p, answer, second)
    ensures a.primary == b.primary && a.audit == b.audit && a.disposition == b.disposition
    ensures forall r :: r in a.reasons <==> r in b.reasons
  {
    assert a.reasons != [] ==> a.reasons[0] in b.reasons;
    assert b.reasons != [] ==> b.reasons[0] in a.reasons;
  }

  /** One message of Evaluate, given what the classifiers answer. */
  method EvaluateOne(p: Policy, answer: Decision, second: Option<Decision>) returns (eval: Evaluation)
    ensures Evaluated(eval, p, answer, second)
  {
    var primary := Normalize(answer);
    var audit := Normalized(second);
    var reasons := ReviewReasons(p, primary, audit);
    var disposition := Dispose(p, primary, audit, reasons);
    eval := Evaluation(primary, audit, reasons, disposition);
  }

  /** The audit's answer to message i, None without an audit. */
  function SecondOf(audits: Option<seq<Option<Decision>>>, i: nat): Option<Decision>
    requires audits.Some? ==> i < |audits.value|
  {
    if audits.Some? then audits.value[i] else None
  }

  /** Evaluate: the first failing classifier call ends it; otherwise each message is evaluated on its own. */
  method Evaluate(c: Configured, answers: seq<Option<Decision>>, audits: Option<seq<Option<Decision>>>)
    returns (result: Option<seq<Evaluation>>)
    requires audits.Some? ==> |audits.value| == |answers|
    ensures result.None? <==> exists i :: 0 <= i < |answers| && (answers[i].None? || (audits.Some? && audits.value[i].None?))
    ensures result.Some? ==> |result.value| == |answers|
    ensures result.Some? ==> forall i :: 0 <= i < |answers| ==>
              Evaluated(result.value[i], Effective(c), answers[i].value, SecondOf(audits, i))
  {
    var policy := Effective(c);
    var results: seq<Evaluation> := [];
    for i := 0 to |answers|
      invariant |results| == i
      invariant forall k :: 0 <= k < i ==> answers[k].Some? && (audits.Some? ==> audits.value[k].Some?)
      invariant forall k :: 0 <= k < i ==> Evaluated(results[k], policy, answers[k].value, SecondOf(audits, k))
    {
      if answers[i].None? {
        return None;
      }
      var second: Option<Decision> := None;
      if audits.Some? {
        if audits.value[i].None? {
          return None;
        }
        second := audits.value[i];
      }
      var eval := EvaluateOne(policy, answers[i].value, second);
      results := results + [eval];
    }
    result := Some(results);
  }

  // ----- the classifier under the default policy -----

  predicate DefaultAutoApply(p: Policy) {
    p.phase == AutoApply && p.thresholds == DEFAULT_THRESHOLDS
  }

  /** The two classifiers disagree on a protected message and one of them would trash it. */
  predicate FallsBack(e: Evidence, semantic: Semantic) {
    var local := LocalDecision(e);
    && e.isProtected && semantic.Answers? && !SkipSemantic(local, e)
    && local.action != Normalize(semantic.d).action
    && (local.action == Trash || semantic.d.action == Trash)
  }

  /** Such a message is archived by the classifier, but with too little confidence to be moved without review. */
  lemma FallbackIsReviewed(e: Evidence, semantic: Semantic, p: Policy, audit: Option<Decision>)
    requires FallsBack(e, semantic) && DefaultAutoApply(p)
    ensures var d := Classify(e, semantic).value; d.action == Archive && TooUncertain(p, d) && !ActsAlone(p, d, audit)
  {
  }

  /** An audit that does not answer this action with a blank label is in the way, if the policy asks for agreement. */
  predicate Overruled(p: Policy, action: Action, audit: Option<Decision>) {
    p.reviewOnDisagreement && audit.Some? && (audit.value.action != action || TrimSpace(audit.value.archiveLabel) != "")
  }

  lemma UnlabelledDisagrees(d: Decision, audit: Option<Decision>)
    requires TrimSpace(d.archiveLabel) == ""
    ensures Disagrees(d, audit) <==>
            audit.Some? && (audit.value.action != d.action || TrimSpace(audit.value.archiveLabel) != "")
  {
    if audit.Some? {
      var theirs := TrimSpace(audit.value.archiveLabel);
      assert |Lower(theirs)| == |theirs| && Lower("") == "";
    }
  }

  lemma NothingToTrim()
    ensures TrimSpace("") == ""
  {
  }

  /** A rule is applied without review unless the policy keeps its action to the user, or an audit is in the way. */
  lemma RuleIsApplied(e: Evidence, semantic: Semantic, p: Policy, audit: Option<Decision>)
    requires e.rule.Some? && e.rule.value != Inbox && e.rule.value != Other && DefaultAutoApply(p)
    ensures ActsAlone(p, Classify(e, semantic).value, audit) <==>
            e.rule.value !in p.manualActions && !Overruled(p, e.rule.value, audit)
  {
    NothingToTrim();
    UnlabelledDisagrees(LocalDecision(e), audit);
  }

  predicate StrongSpam(e: Evidence) {
    !e.flagged && !e.isProtected && e.factors.actionRequired < 0.72 && e.factors.spam >= 0.97
  }

  lemma LocalTrash(e: Evidence)
    requires e.rule.None? && InRange(e.factors)
    ensures var d := LocalDecision(e);
            if StrongSpam(e) then d.action == Trash && d.confidence >= 0.98
            else d.action == Trash ==> d.confidence < 0.98
  {
  }

  lemma LocalLabel(e: Evidence)
    ensures TrimSpace(LocalDecision(e).archiveLabel) == ""
  {
    NothingToTrim();
  }

  /**
   Without rules and a semantic classifier, what is trashed unseen is exactly strong spam, if the policy leaves
   trashing to the program and no audit is in the way.
   */
  lemma TrashedUnseenIff(e: Evidence, p: Policy, audit: Option<Decision>)
    requires e.rule.None? && InRange(e.factors) && DefaultAutoApply(p)
    ensures var d := Classify(e, NoClassifier).value;
            d.action == Trash && ActsAlone(p, d, audit) <==>
            StrongSpam(e) && Trash !in p.manualActions && !Overruled(p, Trash, audit)
  {
    LocalTrash(e);
    LocalLabel(e);
    UnlabelledDisagrees(LocalDecision(e), audit);
  }

  // ----- what the factors decide -----

  /** Neither flagged nor in clear need of action, nor spam beyond doubt. */
  predicate Ordinary(e: Evidence) {
    !e.flagged && e.factors.actionRequired < 0.72 && (e.isProtected || e.factors.spam < 0.97)
  }

  predicate WorthKeeping(e: Evidence) {
    e.factors.reference >= 0.58 || e.isProtected
  }

  /** Old mail, or likely spam, that does not seem to need action. */
  predicate Discardable(e: Evidence) {
    || (e.factors.staleness >= 0.72 && e.factors.actionRequired < 0.45)
    || (e.factors.spam >= 0.80 && e.factors.actionRequired < 0.35)
  }

  /** Without rules and a semantic classifier: skim-worthy mail is copied, reference mail archived, the rest may go. */
  lemma FactorsDecide(e: Evidence)
    requires e.rule.None?
    ensures var d := Classify(e, NoClassifier).value;
            && (d.action == Cc <==> Ordinary(e) && e.factors.skim >= 0.62)
            && (d.action == Archive <==> Ordinary(e) && e.factors.skim < 0.62 && WorthKeeping(e))
            && (d.action == Trash <==>
                  StrongSpam(e) || (Ordinary(e) && e.factors.skim < 0.62 && !WorthKeeping(e) && Discardable(e)))
            && d.action != Other
  {
  }

  /** Skim-worthy mail is moved unseen exactly when skim outweighs the need for action by enough. */
  lemma CopiedUnseenIff(e: Evidence, p: Policy, audit: Option<Decision>)
    requires e.rule.None? && InRange(e.factors) && DefaultAutoApply(p)
    ensures var d := Classify(e, NoClassifier).value;
            d.action == Cc && ActsAlone(p, d, audit) <==>
            && Ordinary(e) && e.factors.skim >= 0.62 && 35.0 * e.factors.skim - 10.0 * e.factors.actionRequired >= 25.0
            && Cc !in p.manualActions && !Overruled(p, Cc, audit)
  {
    FactorsDecide(e);
    LocalLabel(e);
    UnlabelledDisagrees(LocalDecision(e), audit);
  }

  /** And reference mail is archived unseen exactly when it is reference mail beyond doubt. */
  lemma ArchivedUnseenIff(e: Evidence, p: Policy, audit: Option<Decision>)
    requires e.rule.None? && InRange(e.factors) && DefaultAutoApply(p)
    ensures var d := Classify(e, NoClassifier).value;
            d.action == Archive && ActsAlone(p, d, audit) <==>
            && Ordinary(e) && e.factors.skim < 0.62
            && 33.0 * e.factors.reference - 10.0 * e.factors.actionRequired >= 31.0
            && Archive !in p.manualActions && !Overruled(p, Archive, audit)
  {
    FactorsDecide(e);
    LocalLabel(e);
    UnlabelledDisagrees(LocalDecision(e), audit);
  }

  /** The semantic classifier is asked, and its failure matters, exactly without a rule and a confident local decision. */
  lemma AskedIff(e: Evidence)
    ensures Classify(e, Fails).None? <==>
            e.rule.None? && (e.isProtected || Classify(e, NoClassifier).value.confidence < 0.97)
  {
  }

  /** Its answer, if it differs, prevails exactly when it is surer by 0.15 and neither kind of mail is in the way. */
  lemma AnswerPrevailsIff(e: Evidence, d: Decision)
    requires Classify(e, Fails).None? && d.action != Other && 0.0 <= d.confidence <= 1.0
    requires d.action != Classify(e, NoClassifier).value.action
    ensures var local := Classify(e, NoClassifier).value;
            Classify(e, Answers(d)).value.action == d.action <==>
            if e.isProtected && (local.action == Trash || d.action == Trash) then d.action == Archive
            else !(local.action == Inbox && local.factors.actionRequired >= 0.75)
                 && d.confidence >= local.confidence + 0.15
  {
  }

  /** How sure the local decision is, in hundredths: mail that stays, and mail that is moved. */
  lemma StayingConfidence(e: Evidence)
    requires e.rule.None? && InRange(e.factors) && Classify(e, NoClassifier).value.action == Inbox
    ensures var a, c := e.factors.actionRequired, 100.0 * Classify(e, NoClassifier).value.confidence;
            c == if e.flagged then (if a > 0.94 then 100.0 * a else 94.0)
                 else if a >= 0.72 then 60.0 + 40.0 * a else 55.0 + 25.0 * a
  {
  }

  lemma MovingConfidence(e: Evidence)
    requires e.rule.None? && InRange(e.factors) && Classify(e, NoClassifier).value.action != Inbox
    ensures var f, d := e.factors, Classify(e, NoClassifier).value;
            100.0 * d.confidence ==
            match d.action
            case Cc => 65.0 + 35.0 * f.skim - 10.0 * f.actionRequired
            case Archive => 62.0 + 33.0 * (if f.reference > 0.4 then f.reference else 0.4) - 10.0 * f.actionRequired
            case _ =>
              if StrongSpam(e) then 75.0 + 25.0 * f.spam
              else if f.staleness >= 0.72 && f.actionRequired < 0.45 then 55.0 + 35.0 * f.staleness
              else 50.0 + 30.0 * f.spam
  {
  }

  lemma RuleConfidence(e: Evidence, semantic: Semantic)
    requires e.rule.Some?
    ensures Classify(e, semantic).Some? && Classify(e, semantic).value.confidence == 0.995
    ensures Classify(e, semantic).value.action == if e.rule.value == Other then Inbox else e.rule.value
  {
  }

  lemma LocalIsNormal(e: Evidence)
    ensures var local := LocalDecision(e); local.action != Other && 0.0 <= local.confidence <= 1.0
    ensures InRange(e.factors) ==> LocalDecision(e).factors == e.factors
  {
  }

  lemma CombinedConfidence(e: Evidence, local: Decision, d: Decision, surer: real)
    requires local.action != Other && d.action != Other && 0.0 <= local.confidence <= 1.0 && 0.0 <= d.confidence <= 1.0
    requires surer == if local.confidence > d.confidence then local.confidence else d.confidence
    ensures var r := CombineHybrid(e, local, d);
            if d.action == local.action then r.action == d.action && r.confidence == surer
            else if e.isProtected && (local.action == Trash || d.action == Trash) then
              r.action == Archive && 100.0 * r.confidence == 85.0 * surer
            else if local.action == Inbox && local.factors.actionRequired >= 0.75 then
              r.action == Inbox && r.confidence == if local.confidence > 0.92 then local.confidence else 0.92
            else r.confidence == if d.confidence >= local.confidence + 0.15 then d.confidence else local.confidence
  {
  }

  /** What the answer of the semantic classifier makes of it. */
  lemma AnsweredConfidence(e: Evidence, d: Decision, local: Decision, surer: real)
    requires InRange(e.factors) && Classify(e, Fails).None? && d.action != Other && 0.0 <= d.confidence <= 1.0
    requires local == Classify(e, NoClassifier).value
    requires surer == if local.confidence > d.confidence then local.confidence else d.confidence
    ensures var r := Classify(e, Answers(d)).value;
            if d.action == local.action then r.action == d.action && r.confidence == surer
            else if e.isProtected && (local.action == Trash || d.action == Trash) then
              r.action == Archive && 100.0 * r.confidence == 85.0 * surer
            else if local.action == Inbox && e.factors.actionRequired >= 0.75 then
              r.action == Inbox && r.confidence == if local.confidence > 0.92 then local.confidence else 0.92
            else r.confidence == if d.confidence >= local.confidence + 0.15 then d.confidence else local.confidence
  {
    LocalIsNormal(e);
    CombinedConfidence(e, local, Normalize(d).(factors := local.factors), surer);
  }

  // ----- a policy that is not configured -----

  /** Without a phase everything is reviewed, and a disagreement of the audit is a reason for it. */
  lemma UnconfiguredReviewsAll(c: Configured, eval: Evaluation, answer: Decision, second: Option<Decision>)
    requires c.phase.None? && Evaluated(eval, Effective(c), answer, second)
    ensures eval.disposition == Review && ManualReviewPhase in eval.reasons
    ensures AuditDisagreement in eval.reasons <==> Disagrees(eval.primary, eval.audit)
  {
    assert Applies(ManualReviewPhase, Effective(c), eval.primary, eval.audit);
  }

  /** Without thresholds, confidence must be 0.90 for cc, 0.93 for archive and 0.98 for trash. */
  lemma UnconfiguredThresholds(c: Configured, eval: Evaluation, answer: Decision, second: Option<Decision>)
    requires |c.thresholds| == 0 && c.phase != Some(Shadow) && Evaluated(eval, Effective(c), answer, second)
    ensures LowConfidence in eval.reasons <==>
            || (eval.primary.action == Cc && eval.primary.confidence < 0.90)
            || (eval.primary.action == Archive && eval.primary.confidence < 0.93)
            || (eval.primary.action == Trash && eval.primary.confidence < 0.98)
  {
  }

  /** A phase, thresholds and manual actions that are configured are the ones that count. */
  lemma ConfiguredCounts(c: Configured, eval: Evaluation, answer: Decision, second: Option<Decision>)
    requires c.phase == Some(AutoApply) && Evaluated(eval, Effective(c), answer, second)
    ensures var a, manual := eval.primary.action, c.manualActions.Some? && eval.primary.action in c.manualActions.value;
            && (ManualAction in eval.reasons <==> manual)
            && (c.thresholds != map[] ==>
                  (LowConfidence in eval.reasons <==>
                   a != Inbox && a in c.thresholds && eval.primary.confidence < c.thresholds[a]))
            && (AuditDisagreement in eval.reasons <==> c.reviewOnDisagreement && Disagrees(eval.primary, eval.audit))
  {
  }
}
