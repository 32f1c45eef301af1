/** The "Recommended for You" panel: rules that each push one suggestion
    depending on the explanation level, the selected object, the spacecraft
    speed and the gravity-field toggle, then the three suggestions of lowest
    priority number, ties in the order they were pushed. */
module ContentRecommendations {
  import opened Common
  import opened Sorting
  import opened AppStore

  /** One suggestion per rule, declared in the order the rules push them. */
  datatype Rule =
    | StudentLevel       // "Ready for More?"
    | ProfessionalLevel  // "Go Professional"
    | ExtremeObjects     // "Explore Extreme Objects"
    | TimeDilation       // "Time Dilation Effects"
    | SpeedUp            // "Speed Up!"
    | Relativity         // "Relativistic Effects"
    | GravityField       // "Visualize Gravity"
    | CosmicDistances    // "Cosmic Distances"

  datatype Kind = LevelUp | Explore | Feature | Experiment | Physics | Visualization | Scale

  function KindOf(r: Rule): Kind
  {
    match r
    case StudentLevel => LevelUp
    case ProfessionalLevel => LevelUp
    case ExtremeObjects => Explore
    case TimeDilation => Feature
    case SpeedUp => Experiment
    case Relativity => Physics
    case GravityField => Visualization
    case CosmicDistances => Scale
  }

  function Priority(r: Rule): nat
  {
    match r
    case StudentLevel => 1
    case ProfessionalLevel => 2
    case ExtremeObjects => 3
    case TimeDilation => 1
    case SpeedUp => 2
    case Relativity => 1
    case GravityField => 2
    case CosmicDistances => 2
  }

  /** Position of the rule's push in the rule list. */
  function PushOrder(r: Rule): int
  {
    match r
    case StudentLevel => 0
    case ProfessionalLevel => 1
    case ExtremeObjects => 2
    case TimeDilation => 3
    case SpeedUp => 4
    case Relativity => 5
    case GravityField => 6
    case CosmicDistances => 7
  }

  /** `(a, b) => a.priority - b.priority` as a sort key. */
  function PriorityKey(r: Rule): real { Priority(r) as real }

  /** One light year in metres, the distance threshold. */
  const LightYear: real := 9461000000000.0

  /** The store values the panel reads. */
  datatype Situation = Situation(body: Body, level: string, speed: real, showGravityField: bool)

  /** When each suggestion is pushed, rule by rule. */
  predicate Applies(r: Rule, s: Situation)
  {
    match r
    case StudentLevel => s.level == "eli12"
    case ProfessionalLevel => s.level == "student"
    case ExtremeObjects => s.body.name == "Earth"
    case TimeDilation => s.body.name != "Earth" && s.body.kind == "compact"
    case SpeedUp => s.speed < 0.1
    case Relativity => s.speed > 0.8
    case GravityField => !s.showGravityField && s.body.kind != "compact"
    case CosmicDistances => s.body.distanceFromEarth > LightYear
  }

  /** The rule pushed `k`-th. */
  function RuleAt(k: nat): (r: Rule)
    requires k < 8
    ensures PushOrder(r) == k
  {
    if k == 0 then StudentLevel
    else if k == 1 then ProfessionalLevel
    else if k == 2 then ExtremeObjects
    else if k == 3 then TimeDilation
    else if k == 4 then SpeedUp
    else if k == 5 then Relativity
    else if k == 6 then GravityField
    else CosmicDistances
  }

  /** The suggestions pushed by the first `k` rules: those that apply, in
      push order. */
  function FiredUpTo(k: nat, s: Situation): seq<Rule>
    requires k <= 8
  {
    if k == 0 then []
    else FiredUpTo(k - 1, s) + (if Applies(RuleAt(k - 1), s) then [RuleAt(k - 1)] else [])
  }

  function Fired(s: Situation): seq<Rule>
  {
    FiredUpTo(8, s)
  }

  /** The first `k` rules push exactly the suggestions that apply among
      them, each once, in push order. */
  lemma {:induction false} FiredUpToMeaning(k: nat, s: Situation)
    requires k <= 8
    ensures var recs := FiredUpTo(k, s);
            && (forall r :: r in recs <==> Applies(r, s) && PushOrder(r) < k)
            && (forall i, j :: 0 <= i < j < |recs| ==> PushOrder(recs[i]) < PushOrder(recs[j]))
  {
    if k > 0 {
      FiredUpToMeaning(k - 1, s);
      var r := RuleAt(k - 1);
      forall x | PushOrder(x) == k - 1 ensures x == r {
        assert RuleAt(PushOrder(x)) == x;
      }
    }
  }

  /** The fired list holds exactly the suggestions that apply, each once,
      in push order. */
  lemma FiredMeaning(s: Situation)
    ensures var recs := Fired(s);
            && (forall r :: r in recs <==> Applies(r, s))
            && (forall i, j :: 0 <= i < j < |recs| ==> PushOrder(recs[i]) < PushOrder(recs[j]))
  {
    FiredUpToMeaning(8, s);
  }

  /** The `recs` list, built by the conditional pushes. */
  method Candidates(s: Situation) returns (recs: seq<Rule>)
    ensures recs == Fired(s)
  {
    recs := [];
    assert FiredUpTo(1, s) == if Applies(StudentLevel, s) then [StudentLevel] else [];
    if s.level == "eli12" {
      recs := recs + [StudentLevel];
    } else if s.level == "student" {
      recs := recs + [ProfessionalLevel];
    }
    assert recs == FiredUpTo(2, s);
    if s.body.name == "Earth" {
      recs := recs + [ExtremeObjects];
    } else if s.body.kind == "compact" {
      recs := recs + [TimeDilation];
    }
    assert recs == FiredUpTo(4, s);
    if s.speed < 0.1 {
      recs := recs + [SpeedUp];
    } else if s.speed > 0.8 {
      recs := recs + [Relativity];
    }
    assert recs == FiredUpTo(6, s);
    if !s.showGravityField && s.body.kind != "compact" {
      recs := recs + [GravityField];
    }
    assert recs == FiredUpTo(7, s);
    if s.body.distanceFromEarth > LightYear {
      recs := recs + [CosmicDistances];
    }
  }

  /** `recommendations`: the candidates sorted by priority (stably), cut to
      three.  What is shown applies, is at most three long, is ordered by
      priority with ties in push order, and nothing left out has a lower
      priority number than something shown. */
  method Recommendations(s: Situation) returns (shown: seq<Rule>)
    ensures |shown| <= 3
    ensures forall r :: r in shown ==> Applies(r, s)
    ensures forall i, j :: 0 <= i < j < |shown| ==> Priority(shown[i]) <= Priority(shown[j])
    ensures forall i, j :: 0 <= i < j < |shown| && Priority(shown[i]) == Priority(shown[j])
              ==> PushOrder(shown[i]) < PushOrder(shown[j])
    ensures forall r :: Applies(r, s) && r !in shown ==>
              |shown| == 3 && forall i :: 0 <= i < |shown| ==> Priority(shown[i]) <= Priority(r)
  {
    var recs := Candidates(s);
    FiredMeaning(s);
    SortByKeepsTies(recs, PriorityKey, PushOrder);
    shown := Take(SortBy(recs, PriorityKey), 3);
    TopThreeFrom(recs);
  }

  /** The first three of the sorted list come from the list, and an element
      of the list left out of them has no lower priority number than any of
      them. */
  lemma TopThreeFrom(recs: seq<Rule>)
    ensures var sorted := SortBy(recs, PriorityKey);
            var shown := Take(sorted, 3);
            && (forall r :: r in shown ==> r in recs)
            && (forall r :: r in recs && r !in shown ==>
                  |shown| == 3 && forall i :: 0 <= i < |shown| ==> Priority(shown[i]) <= Priority(r))
  {
    TakeSortedBy(recs, PriorityKey, 3);
  }

  /** At most one level-up suggestion, and none at the professional level. */
  lemma AtMostOneLevelUp(s: Situation)
    ensures var recs := Fired(s);
            && (forall i, j :: 0 <= i < |recs| && 0 <= j < |recs| && KindOf(recs[i]) == LevelUp && KindOf(recs[j]) == LevelUp ==> i == j)
            && (s.level == "pro" ==> forall r :: r in recs ==> KindOf(r) != LevelUp)
  {
    FiredMeaning(s);
    var recs := Fired(s);
    forall i, j | 0 <= i < |recs| && 0 <= j < |recs| && KindOf(recs[i]) == LevelUp && KindOf(recs[j]) == LevelUp
      ensures i == j
    {
      assert recs[i] in recs && recs[j] in recs;
    }
  }

  /** The Earth and compact-object suggestions never come together, and
      neither do the two speed suggestions; a compact object gets no
      gravity-field suggestion. */
  lemma ExclusiveSuggestions(s: Situation)
    ensures !(ExtremeObjects in Fired(s) && TimeDilation in Fired(s))
    ensures !(SpeedUp in Fired(s) && Relativity in Fired(s))
    ensures TimeDilation in Fired(s) ==> GravityField !in Fired(s)
    ensures GravityField in Fired(s) <==> !s.showGravityField && s.body.kind != "compact"
    ensures CosmicDistances in Fired(s) <==> s.body.distanceFromEarth > LightYear
  {
    FiredMeaning(s);
  }
}
