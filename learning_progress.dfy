/** The learning-progress panel of the explorer: the set of objects looked
    at (Earth from the start), the concepts met at the chosen explanation
    level, the seconds since the panel appeared and a count of object
    changes; from them a score, a level and the share of the seven objects
    collected. */
module LearningProgress {
  import opened Common

  // ---------------------------------------------------------------------
  // Object keys
  // ---------------------------------------------------------------------

  /** `name.toLowerCase().replace(/\s+/g, '')`. */
  function ObjectKey(name: string): (k: string)
    ensures |k| <= |name|
    ensures forall i :: 0 <= i < |k| ==> !IsJsSpace(k[i]) && LowerChar(k[i]) == k[i]
    ensures k == RemoveSpaces(ToLower(name))
  {
    var lower := ToLower(name);
    RemoveSpacesKeeps(lower);
    assert forall c :: c in lower ==> LowerChar(c) == c;
    var k := RemoveSpaces(lower);
    assert forall i :: 0 <= i < |k| ==> k[i] in lower;
    k
  }

  /** Every character removing spaces keeps comes from its input. */
  lemma {:induction false} RemoveSpacesKeeps(s: string)
    ensures forall c :: c in RemoveSpaces(s) ==> c in s
  {
    if s != [] {
      RemoveSpacesKeeps(s[1..]);
      assert forall c :: c in s[1..] ==> c in s;
    }
  }

  /** Removing spaces from a text without any changes nothing. */
  lemma {:induction false} RemoveSpacesFixed(s: string)
    requires forall i :: 0 <= i < |s| ==> !IsJsSpace(s[i])
    ensures RemoveSpaces(s) == s
  {
    if s != [] {
      RemoveSpacesFixed(s[1..]);
      assert [s[0]] + s[1..] == s;
    }
  }

  /** A key is its own key: two names with the same key are the same
      object, and adding a key twice adds it once. */
  lemma ObjectKeyIdempotent(name: string)
    ensures ObjectKey(ObjectKey(name)) == ObjectKey(name)
  {
    var k := ObjectKey(name);
    assert ToLower(k) == k;
    RemoveSpacesFixed(k);
  }

  // ---------------------------------------------------------------------
  // Concepts per explanation level
  // ---------------------------------------------------------------------

  /** The concepts the concept effect adds for an explanation level. */
  function ConceptsFor(level: string): (c: set<string>)
    ensures level == "eli12" ==> |c| == 2 && "basic_gravity" in c
    ensures level == "student" ==> |c| == 3 && "escape_velocity" in c
    ensures level == "pro" ==> |c| == 3 && "general_relativity" in c
    ensures level !in {"eli12", "student", "pro"} ==> c == {}
  {
    if level == "eli12" then {"basic_gravity", "space_objects"}
    else if level == "student" then {"escape_velocity", "orbital_mechanics", "gravitational_fields"}
    else if level == "pro" then {"general_relativity", "schwarzschild_radius", "time_dilation"}
    else {}
  }

  /** The eight concepts any level can teach. */
  const AllConcepts: set<string> :=
    {"basic_gravity", "space_objects", "escape_velocity", "orbital_mechanics", "gravitational_fields",
     "general_relativity", "schwarzschild_radius", "time_dilation"}

  lemma ConceptsForWithin(level: string)
    ensures ConceptsFor(level) <= AllConcepts
  {
  }

  // ---------------------------------------------------------------------
  // Score, level and completion
  // ---------------------------------------------------------------------

  /** Ten points per object, five per concept, two per whole minute. */
  function Score(objects: nat, concepts: nat, seconds: nat): nat
  {
    objects * 10 + concepts * 5 + (seconds / 60) * 2
  }

  datatype Level = Beginner | Explorer | Scientist | Expert

  function Rank(l: Level): nat
  {
    match l
    case Beginner => 0
    case Explorer => 1
    case Scientist => 2
    case Expert => 3
  }

  /** `getProgressLevel`: below 20, below 50, below 100, and the rest. */
  function LevelOf(score: nat): (l: Level)
    ensures l == Beginner <==> score < 20
    ensures l == Explorer <==> 20 <= score < 50
    ensures l == Scientist <==> 50 <= score < 100
    ensures l == Expert <==> score >= 100
  {
    if score < 20 then Beginner
    else if score < 50 then Explorer
    else if score < 100 then Scientist
    else Expert
  }

  /** A higher score never gives a lower level. */
  lemma LevelMonotone(s1: nat, s2: nat)
    requires s1 <= s2
    ensures Rank(LevelOf(s1)) <= Rank(LevelOf(s2))
  {
  }

  /** More objects, concepts or time never lower the score. */
  lemma ScoreMonotone(o1: nat, c1: nat, t1: nat, o2: nat, c2: nat, t2: nat)
    requires o1 <= o2 && c1 <= c2 && t1 <= t2
    ensures Score(o1, c1, t1) <= Score(o2, c2, t2)
  {
  }

  /** `Math.min((objects / 7) * 100, 100)`, in exact arithmetic. */
  function Completion(objects: nat): (pct: real)
    ensures 0.0 <= pct <= 100.0
    ensures pct == 100.0 <==> objects >= 7
    ensures objects < 7 ==> pct == (objects as real) * 100.0 / 7.0
  {
    var raw := (objects as real) / 7.0 * 100.0;
    if raw < 100.0 then raw else 100.0
  }

  /** Collecting objects never lowers the completion. */
  lemma CompletionMonotone(o1: nat, o2: nat)
    requires o1 <= o2
    ensures Completion(o1) <= Completion(o2)
  {
  }

  // ---------------------------------------------------------------------
  // The progress record
  // ---------------------------------------------------------------------

  /** A union is at least as large as its left operand. */
  lemma UnionNoSmaller<T>(a: set<T>, b: set<T>)
    ensures |a| <= |a + b|
  {
    assert a + b == a + (b - a);
    assert a !! (b - a);
  }

  class Progress {
    var objectsExplored: set<string>
    var featuresUsed: set<string>
    var timeSpent: nat
    var conceptsLearned: set<string>
    var currentStreak: nat
    var totalInteractions: nat

    /** Earth is always among the objects explored and only the eight
        level concepts are ever learned. */
    ghost predicate Valid()
      reads this
    {
      "earth" in objectsExplored && conceptsLearned <= AllConcepts
    }

    /** The initial record: Earth explored, nothing else. */
    constructor ()
      ensures Valid()
      ensures objectsExplored == {"earth"} && featuresUsed == {} && timeSpent == 0
      ensures conceptsLearned == {} && currentStreak == 0 && totalInteractions == 0
    {
      objectsExplored := {"earth"};
      featuresUsed := {};
      timeSpent := 0;
      conceptsLearned := {};
      currentStreak := 0;
      totalInteractions := 0;
    }

    function CurrentScore(): nat
      reads this
    {
      Score(|objectsExplored|, |conceptsLearned|, timeSpent)
    }

    function CurrentLevel(): Level
      reads this
    {
      LevelOf(CurrentScore())
    }

    function CompletionPercentage(): real
      reads this
    {
      Completion(|objectsExplored|)
    }

    /** The object effect: the selected object's key joins the set and the
        interaction count goes up by one, whether or not the key is new. */
    method SelectObject(name: string)
      requires Valid()
      modifies this`objectsExplored, this`totalInteractions
      ensures Valid()
      ensures objectsExplored == old(objectsExplored) + {ObjectKey(name)}
      ensures totalInteractions == old(totalInteractions) + 1
      ensures CurrentScore() >= old(CurrentScore())
    {
      UnionNoSmaller(objectsExplored, {ObjectKey(name)});
      ScoreMonotone(|objectsExplored|, |conceptsLearned|, timeSpent,
                    |objectsExplored + {ObjectKey(name)}|, |conceptsLearned|, timeSpent);
      objectsExplored := objectsExplored + {ObjectKey(name)};
      totalInteractions := totalInteractions + 1;
    }

    /** The one-second timer: whole seconds since the panel appeared, with
        the clock reading given as milliseconds elapsed. */
    method Tick(elapsedMs: nat)
      modifies this`timeSpent
      ensures timeSpent == elapsedMs / 1000
      ensures timeSpent * 1000 <= elapsedMs < (timeSpent + 1) * 1000
    {
      timeSpent := elapsedMs / 1000;
    }

    /** The concept effect: the concepts of the current level join the set. */
    method LearnConcepts(level: string)
      requires Valid()
      modifies this`conceptsLearned
      ensures Valid()
      ensures conceptsLearned == old(conceptsLearned) + ConceptsFor(level)
      ensures CurrentScore() >= old(CurrentScore())
    {
      ConceptsForWithin(level);
      UnionNoSmaller(conceptsLearned, ConceptsFor(level));
      ScoreMonotone(|objectsExplored|, |conceptsLearned|, timeSpent,
                    |objectsExplored|, |conceptsLearned + ConceptsFor(level)|, timeSpent);
      conceptsLearned := conceptsLearned + ConceptsFor(level);
    }
  }

  /** A valid record scores at least ten and has at most eight concepts, so
      it is never below a seventh of the way to completion. */
  lemma ValidBounds(objects: set<string>, concepts: set<string>, seconds: nat)
    requires "earth" in objects && concepts <= AllConcepts
    ensures Score(|objects|, |concepts|, seconds) >= 10
    ensures |concepts| <= 8
    ensures Completion(|objects|) >= 100.0 / 7.0
  {
    assert {"earth"} <= objects;
    SubsetNoLarger({"earth"}, objects);
    SubsetNoLarger(concepts, AllConcepts);
    assert |AllConcepts| == 8;
  }

  lemma SubsetNoLarger<T>(a: set<T>, b: set<T>)
    requires a <= b
    ensures |a| <= |b|
  {
    assert b == a + (b - a);
    assert a !! (b - a);
  }
}
