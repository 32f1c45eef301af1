/** The quiz question banks, the quiz-mode table and the generator that picks
    a shuffled set of questions for a mode.  Question wording, answer options
    and explanations are text the model does not need: a question keeps its
    identifier, its type, its option count, its correct answer, its topic,
    its point value and the scene toggle it depends on. */
module QuizQuestions {
  import opened Common
  import opened AppStore

  datatype Kind = MultipleChoice | TrueFalse | SceneReading

  datatype Question = Question(
    id: string,
    kind: Kind,
    difficulty: string,
    optionCount: nat,
    correct: Answer,
    topic: string,
    points: nat,
    requiresVisualization: Option<string>)

  /** A bank question with four options, worth 10 points. */
  function Choice4(id: string, difficulty: string, correct: nat, topic: string): Question
  {
    Question(id, MultipleChoice, difficulty, 4, Choice(correct), topic, 10, None)
  }

  /** A bank true/false question, worth 10 points. */
  function TrueOrFalse(id: string, difficulty: string, correct: bool, topic: string): Question
  {
    Question(id, TrueFalse, difficulty, 0, Verdict(correct), topic, 10, None)
  }

  /** The correct answer is of the question's type, and an option index names
      one of the options. */
  predicate WellFormed(q: Question)
  {
    q.points > 0 &&
    match q.kind
    case TrueFalse => q.correct.Verdict?
    case _ => q.correct.Choice? && 0 <= q.correct.index < q.optionCount
  }

  function QuickQuestions(difficulty: string): seq<Question>
  {
    [ Choice4("q1", difficulty, 1, "planets"),
      Choice4("q2", difficulty, 1, "gravity"),
      TrueOrFalse("q3", difficulty, false, "moon"),
      Choice4("q4", difficulty, 1, "light"),
      Choice4("q5", difficulty, 1, "black_holes"),
      TrueOrFalse("q6", difficulty, false, "gravity") ]
  }

  function GravityQuestions(difficulty: string): seq<Question>
  {
    [ Choice4("g1", difficulty, 1, "gravity"),
      Choice4("g2", difficulty, 2, "gravity"),
      TrueOrFalse("g3", difficulty, false, "gravity"),
      Choice4("g4", difficulty, 1, "gravity"),
      Choice4("g5", difficulty, 2, "gravity"),
      TrueOrFalse("g6", difficulty, false, "gravity") ]
  }

  function OrbitQuestions(difficulty: string): seq<Question>
  {
    [ Choice4("o1", difficulty, 2, "orbits"),
      Choice4("o2", difficulty, 1, "orbits"),
      TrueOrFalse("o3", difficulty, true, "orbits"),
      Choice4("o4", difficulty, 2, "orbits"),
      Choice4("o5", difficulty, 1, "orbits"),
      TrueOrFalse("o6", difficulty, true, "orbits") ]
  }

  function CompactObjectQuestions(difficulty: string): seq<Question>
  {
    [ Choice4("c1", difficulty, 1, "compact_objects"),
      TrueOrFalse("c2", difficulty, false, "compact_objects"),
      Choice4("c3", difficulty, 1, "compact_objects"),
      Choice4("c4", difficulty, 1, "compact_objects"),
      TrueOrFalse("c5", difficulty, false, "compact_objects"),
      Choice4("c6", difficulty, 1, "compact_objects") ]
  }

  /** The two questions about the 3D scene.  They are always at the student
      level, whatever the player chose; the body's name appears only in the
      wording of the first. */
  const SceneQuestions: seq<Question> :=
    [ Question("s1", SceneReading, "student", 4, Choice(1), "visualization", 12, Some("gravity")),
      Question("s2", SceneReading, "student", 4, Choice(1), "visualization", 12, Some("escape")) ]

  /** The bank a mode draws from; an unknown mode draws from the quick bank. */
  function Bank(mode: string, difficulty: string): (r: seq<Question>)
    ensures |r| == 6
    ensures forall q :: q in r ==> WellFormed(q) && q.difficulty == difficulty && q.kind != SceneReading
  {
    var r := if mode == "quick10" then QuickQuestions(difficulty)
             else if mode == "gravity" then GravityQuestions(difficulty)
             else if mode == "orbits" then OrbitQuestions(difficulty)
             else if mode == "compact" then CompactObjectQuestions(difficulty)
             else QuickQuestions(difficulty);
    BankShaped(mode, difficulty);
    ShapedMembers(r, IdLetter(mode), difficulty);
    r
  }

  /** Six well-formed questions of the given level, none about the scene,
      identified by `letter` and their position from 1 to 6. */
  predicate Shaped(r: seq<Question>, letter: char, difficulty: string)
  {
    |r| == 6 &&
    forall k :: 0 <= k < 6 ==>
      && WellFormed(r[k]) && r[k].difficulty == difficulty && r[k].kind != SceneReading
      && r[k].id == [letter, DigitChar(k + 1)]
  }

  lemma ShapedMembers(r: seq<Question>, letter: char, difficulty: string)
    requires Shaped(r, letter, difficulty)
    ensures forall q :: q in r ==> WellFormed(q) && q.difficulty == difficulty && q.kind != SceneReading
  {
    forall q | q in r ensures WellFormed(q) && q.difficulty == difficulty && q.kind != SceneReading {
      var k :| 0 <= k < |r| && r[k] == q;
    }
  }

  /** Every question of `r` is about `topic`. */
  predicate OnTopic(r: seq<Question>, topic: string)
  {
    forall q :: q in r ==> q.topic == topic
  }

  lemma QuickShaped(d: string)
    ensures Shaped(QuickQuestions(d), 'q', d)
  {
    var r := QuickQuestions(d);
    assert r[0].id == ['q', DigitChar(1)] && r[1].id == ['q', DigitChar(2)] && r[2].id == ['q', DigitChar(3)];
    assert r[3].id == ['q', DigitChar(4)] && r[4].id == ['q', DigitChar(5)] && r[5].id == ['q', DigitChar(6)];
  }

  lemma GravityShaped(d: string)
    ensures Shaped(GravityQuestions(d), 'g', d) && OnTopic(GravityQuestions(d), "gravity")
  {
    var r := GravityQuestions(d);
    assert r[0].id == ['g', DigitChar(1)] && r[1].id == ['g', DigitChar(2)] && r[2].id == ['g', DigitChar(3)];
    assert r[3].id == ['g', DigitChar(4)] && r[4].id == ['g', DigitChar(5)] && r[5].id == ['g', DigitChar(6)];
  }

  lemma OrbitShaped(d: string)
    ensures Shaped(OrbitQuestions(d), 'o', d) && OnTopic(OrbitQuestions(d), "orbits")
  {
    var r := OrbitQuestions(d);
    assert r[0].id == ['o', DigitChar(1)] && r[1].id == ['o', DigitChar(2)] && r[2].id == ['o', DigitChar(3)];
    assert r[3].id == ['o', DigitChar(4)] && r[4].id == ['o', DigitChar(5)] && r[5].id == ['o', DigitChar(6)];
  }

  lemma CompactShaped(d: string)
    ensures Shaped(CompactObjectQuestions(d), 'c', d) && OnTopic(CompactObjectQuestions(d), "compact_objects")
  {
    var r := CompactObjectQuestions(d);
    assert r[0].id == ['c', DigitChar(1)] && r[1].id == ['c', DigitChar(2)] && r[2].id == ['c', DigitChar(3)];
    assert r[3].id == ['c', DigitChar(4)] && r[4].id == ['c', DigitChar(5)] && r[5].id == ['c', DigitChar(6)];
  }

  /** The bank of any mode is shaped, with the mode's letter. */
  lemma BankShaped(mode: string, difficulty: string)
    ensures Shaped(if mode == "quick10" then QuickQuestions(difficulty)
                   else if mode == "gravity" then GravityQuestions(difficulty)
                   else if mode == "orbits" then OrbitQuestions(difficulty)
                   else if mode == "compact" then CompactObjectQuestions(difficulty)
                   else QuickQuestions(difficulty), IdLetter(mode), difficulty)
  {
    if mode == "gravity" {
      GravityShaped(difficulty);
    } else if mode == "orbits" {
      OrbitShaped(difficulty);
    } else if mode == "compact" {
      CompactShaped(difficulty);
    } else {
      QuickShaped(difficulty);
    }
  }

  predicate DistinctIds(s: seq<Question>)
  {
    forall i, j :: 0 <= i < j < |s| ==> s[i].id != s[j].id
  }

  /** The first letter of every identifier in a mode's bank. */
  function IdLetter(mode: string): char
  {
    if mode == "gravity" then 'g'
    else if mode == "orbits" then 'o'
    else if mode == "compact" then 'c'
    else 'q'
  }

  /** Identifiers are a letter naming the bank and the position from 1 to 6,
      so they are distinct within a bank and across banks. */
  lemma BankIds(mode: string, difficulty: string)
    ensures forall k :: 0 <= k < 6 ==> Bank(mode, difficulty)[k].id == [IdLetter(mode), DigitChar(k + 1)]
  {
    BankShaped(mode, difficulty);
  }

  lemma BankIdsDistinct(mode: string, difficulty: string)
    ensures DistinctIds(Bank(mode, difficulty))
  {
    BankIds(mode, difficulty);
    var b := Bank(mode, difficulty);
    forall i, j | 0 <= i < j < |b| ensures b[i].id != b[j].id {
      assert b[i].id[1] == DigitChar(i + 1) && b[j].id[1] == DigitChar(j + 1);
    }
  }

  lemma SceneQuestionsWellFormed()
    ensures DistinctIds(SceneQuestions)
    ensures forall q :: q in SceneQuestions ==>
      WellFormed(q) && q.kind == SceneReading && q.difficulty == "student" && q.requiresVisualization.Some?
  {
  }

  /** A mode outside the table falls back to the quick bank. */
  lemma UnknownModeUsesQuickBank(mode: string, difficulty: string)
    requires QuizModeOf(mode).None?
    ensures Bank(mode, difficulty) == Bank("quick10", difficulty)
  {
  }

  /** The single-topic modes ask only about their topic. */
  lemma ModeTopics(difficulty: string)
    ensures forall q :: q in Bank("gravity", difficulty) ==> q.topic == "gravity"
    ensures forall q :: q in Bank("orbits", difficulty) ==> q.topic == "orbits"
    ensures forall q :: q in Bank("compact", difficulty) ==> q.topic == "compact_objects"
  {
    GravityShaped(difficulty);
    OrbitShaped(difficulty);
    CompactShaped(difficulty);
  }

  // ---------------------------------------------------------------------
  // Quiz modes
  // ---------------------------------------------------------------------

  datatype QuizMode = QuizMode(title: string, description: string, timeLimit: nat, questions: nat)

  /** `quizModes[key]`: the entry for a mode key, `None` for any other key. */
  function QuizModeOf(key: string): Option<QuizMode>
  {
    if key == "quick10" then Some(QuizMode("Quick Quiz", "Fast 6-question challenge", 180, 6))
    else if key == "gravity" then Some(QuizMode("Gravity", "Forces and gravitational fields", 240, 6))
    else if key == "orbits" then Some(QuizMode("Orbits", "Planetary motion and mechanics", 240, 6))
    else if key == "compact" then Some(QuizMode("Compact Objects", "Black holes & neutron stars", 300, 6))
    else None
  }

  /** The table's question counts agree with the banks, every mode has time on
      the clock, and the banks of two different modes share no question. */
  lemma QuizModesMatchBanks(m: string, n: string, difficulty: string)
    requires QuizModeOf(m).Some? && QuizModeOf(n).Some? && m != n
    ensures QuizModeOf(m).value.questions == |Bank(m, difficulty)|
    ensures QuizModeOf(m).value.timeLimit > 0
    ensures forall q, p :: q in Bank(m, difficulty) && p in Bank(n, difficulty) ==> q.id != p.id
  {
    BankIds(m, difficulty);
    BankIds(n, difficulty);
    assert IdLetter(m) != IdLetter(n);
    forall q, p | q in Bank(m, difficulty) && p in Bank(n, difficulty) ensures q.id != p.id {
      assert q.id[0] == IdLetter(m) && p.id[0] == IdLetter(n);
    }
  }

  // ---------------------------------------------------------------------
  // Generation
  // ---------------------------------------------------------------------

  /** `Math.floor(r * (i + 1))` for `0 <= r < 1` is an index in `[0, i]`. */
  lemma PickInRange(r: real, i: nat)
    requires 0.0 <= r < 1.0
    ensures 0 <= (r * (i + 1) as real).Floor <= i
  {
    var n := (i + 1) as real;
    var x := r * n;
    assert 0.0 <= x;
    assert (1.0 - r) * n > 0.0;
    assert (1.0 - r) * n == n - x;
    assert x < n;
  }

  predicate IsRandom(random: seq<real>)
  {
    forall k :: 0 <= k < |random| ==> 0.0 <= random[k] < 1.0
  }

  /** The Fisher-Yates shuffle on a copy of `items`.  Step `k` (for the index
      `i = |items| - 1 - k`) draws `random[k]`, the value `Math.random()`
      would have returned.  The result is a permutation of the argument,
      which is a value and so stays as it was. */
  method ShuffleArray<T>(items: seq<T>, random: seq<real>) returns (shuffled: seq<T>)
    requires |items| <= |random| + 1
    requires IsRandom(random)
    ensures |shuffled| == |items|
    ensures multiset(shuffled) == multiset(items)
  {
    var a := new T[|items|](k requires 0 <= k < |items| => items[k]);
    assert a[..] == items;
    var i := a.Length - 1;
    while i > 0
      invariant -1 <= i < a.Length
      invariant multiset(a[..]) == multiset(items)
    {
      var r := random[a.Length - 1 - i];
      PickInRange(r, i);
      var j := (r * (i + 1) as real).Floor;
      ghost var before := a[..];
      a[i], a[j] := a[j], a[i];
      assert a[..] == before[i := before[j]][j := before[i]];
      i := i - 1;
    }
    shuffled := a[..];
  }

  /** `generateQuizQuestions`: the mode's bank, shuffled, cut to six.  Every
      bank holds six questions, so the player always gets the whole bank in
      a random order. */
  method GenerateQuizQuestions(mode: string, difficulty: string, random: seq<real>) returns (questions: seq<Question>)
    requires |random| >= 5
    requires IsRandom(random)
    ensures |questions| == 6
    ensures multiset(questions) == multiset(Bank(mode, difficulty))
    ensures DistinctIds(questions)
    ensures forall q :: q in questions ==> WellFormed(q) && q.difficulty == difficulty
  {
    var bank := Bank(mode, difficulty);
    var shuffled := ShuffleArray(bank, random);
    questions := Take(shuffled, 6);
    assert questions == shuffled;
    PermutedBank(mode, difficulty, questions);
  }

  /** Any reordering of a bank keeps its questions well formed, at the chosen
      difficulty, and with distinct identifiers. */
  lemma PermutedBank(mode: string, difficulty: string, t: seq<Question>)
    requires multiset(t) == multiset(Bank(mode, difficulty))
    ensures DistinctIds(t)
    ensures forall q :: q in t ==> WellFormed(q) && q.difficulty == difficulty
  {
    var bank := Bank(mode, difficulty);
    forall q | q in t ensures q in bank {
      assert q in multiset(t);
    }
    BankIdsDistinct(mode, difficulty);
    PermutationKeepsDistinctIds(bank, t);
  }

  lemma PermutationKeepsDistinctIds(s: seq<Question>, t: seq<Question>)
    requires DistinctIds(s)
    requires multiset(s) == multiset(t)
    ensures DistinctIds(t)
  {
    forall i, j | 0 <= i < j < |t| ensures t[i].id != t[j].id {
      if t[i].id == t[j].id {
        assert t[i] in multiset(s) && t[j] in multiset(s);
        var a :| 0 <= a < |s| && s[a] == t[i];
        var b :| 0 <= b < |s| && s[b] == t[j];
        if a == b {
          assert t[i] == t[j];
          assert multiset(t)[t[i]] >= 2 by {
            assert t == t[..i] + [t[i]] + t[i+1..j] + [t[j]] + t[j+1..];
          }
          CountAtMostOne(s, t[i]);
          assert false;
        }
        assert false;
      }
    }
  }

  lemma {:induction false} CountAtMostOne(s: seq<Question>, x: Question)
    requires DistinctIds(s)
    ensures multiset(s)[x] <= 1
  {
    if s != [] {
      assert s == [s[0]] + s[1..];
      assert DistinctIds(s[1..]) by {
        forall i, j | 0 <= i < j < |s[1..]| ensures s[1..][i].id != s[1..][j].id {
          assert s[1..][i] == s[i+1] && s[1..][j] == s[j+1];
        }
      }
      CountAtMostOne(s[1..], x);
      if s[0] == x {
        assert x !in s[1..] by {
          forall k | 0 <= k < |s[1..]| ensures s[1..][k] != x {
            assert s[1..][k] == s[k+1];
          }
        }
      }
    }
  }
}
