/** The profile form shown before the first quiz: a name, checked for
    emptiness and then for length after trimming, and a level.  A valid
    submission stores the trimmed name and the level on the user and calls
    back; an invalid one only shows an error. */
module UserSetup {
  import opened Common
  import opened AppStore

  datatype NameError = EmptyName | ShortName

  function Message(e: NameError): string
  {
    match e
    case EmptyName => "Please enter your name"
    case ShortName => "Name must be at least 2 characters"
  }

  datatype Validation = Rejected(reason: NameError) | Accepted(trimmed: string)

  /** The two checks of `handleSubmit`, emptiness first, for a given
      notion of white space.  Lengths are JavaScript's, in UTF-16 code
      units.  A name of spaces only is empty, a trimmed name one code unit
      long is short, and an accepted name is the trimmed text, at least two
      code units long, with no space at either end. */
  function ValidateWith(name: string, isSpace: char -> bool): (v: Validation)
    ensures v == Rejected(EmptyName) <==> AllSpace(name, isSpace)
    ensures v == Rejected(ShortName) <==> Utf16Length(TrimWith(name, isSpace)) == 1
    ensures v.Accepted? <==> Utf16Length(TrimWith(name, isSpace)) >= 2
    ensures v.Accepted? ==> v.trimmed == TrimWith(name, isSpace)
                            && !isSpace(v.trimmed[0]) && !isSpace(v.trimmed[|v.trimmed| - 1])
  {
    TrimEmptyIff(name, isSpace);
    TrimmedEnds(name, isSpace);
    var t := TrimWith(name, isSpace);
    if t == [] then Rejected(EmptyName)
    else if Utf16Length(t) < 2 then Rejected(ShortName)
    else Accepted(t)
  }

  /** A trimmed text has no space at either end. */
  lemma TrimmedEnds(s: string, isSpace: char -> bool)
    ensures var t := TrimWith(s, isSpace);
            t == [] || (!isSpace(t[0]) && !isSpace(t[|t| - 1]))
  {
    var l := DropLeading(s, isSpace);
    var t := DropTrailing(l, isSpace);
    if t != [] {
      assert t[0] == l[0];
    }
  }

  /** With JavaScript's `trim()`. */
  function Validate(name: string): Validation
  {
    ValidateWith(name, IsJsSpace)
  }

  /** Trimming a trimmed name changes nothing. */
  lemma TrimTrimmed(t: string, isSpace: char -> bool)
    requires t == [] || (!isSpace(t[0]) && !isSpace(t[|t| - 1]))
    ensures TrimWith(t, isSpace) == t
  {
    assert DropLeading(t, isSpace) == t;
  }

  /** A name of two or more characters with no space at either end is
      accepted as it is, so submitting a stored name again keeps it. */
  lemma TrimmedNameAccepted(t: string, isSpace: char -> bool)
    requires |t| >= 1 && Utf16Length(t) >= 2 && !isSpace(t[0]) && !isSpace(t[|t| - 1])
    ensures ValidateWith(t, isSpace) == Accepted(t)
  {
    TrimTrimmed(t, isSpace);
  }

  /** One character outside the Basic Multilingual Plane is two code units
      long, so a name that is a single rocket is accepted. */
  lemma AstralCharacterIsLongEnough()
    ensures Validate("\U{1F680}") == Accepted("\U{1F680}")
  {
    var rocket := "\U{1F680}";
    assert !IsJsSpace(rocket[0]);
    assert Utf16Length(rocket) == 2 by {
      assert rocket[1..] == [];
    }
    TrimmedNameAccepted(rocket, IsJsSpace);
  }

  /** A single letter is one code unit long, so it is short. */
  lemma SingleLetterIsShort()
    ensures Validate("a") == Rejected(ShortName)
  {
    var a := "a";
    assert !IsJsSpace(a[0]);
    assert DropLeading(a, IsJsSpace) == a;
    assert DropTrailing(a, IsJsSpace) == a;
    assert Utf16Length(a) == 1 by {
      assert a[1..] == [];
    }
  }

  /** The user object `{ ...user, name, difficulty }`; spreading a missing
      user gives an empty object. */
  function Renamed(user: Option<User>, name: string, difficulty: string): (u: User)
    ensures u.name == Some(name) && u.difficulty == Some(difficulty)
    ensures user.Some? ==> u.quizHistory == user.value.quizHistory && u.quizStats == user.value.quizStats
                           && u.contentProgress == user.value.contentProgress && u.taskProgress == user.value.taskProgress
  {
    user.GetOr(EmptyUser).(name := Some(name), difficulty := Some(difficulty))
  }

  /** `a || b` on an optional string: the empty string counts as missing. */
  function OrDefault(s: Option<string>, default: string): (r: string)
    ensures s.Some? && s.value != "" ==> r == s.value
    ensures s.None? || s.value == "" ==> r == default
  {
    if s.Some? && s.value != "" then s.value else default
  }

  class SetupForm {
    var name: string
    var difficulty: string
    /** The shown error; empty when none. */
    var error: string

    /** The fields start from the stored user, or empty and "student". */
    constructor (user: Option<User>)
      ensures name == OrDefault(if user.Some? then user.value.name else None, "")
      ensures difficulty == OrDefault(if user.Some? then user.value.difficulty else None, "student")
      ensures error == ""
    {
      name := OrDefault(if user.Some? then user.value.name else None, "");
      difficulty := OrDefault(if user.Some? then user.value.difficulty else None, "student");
      error := "";
    }

    /** Typing in the name field clears the error. */
    method EditName(value: string)
      modifies this`name, this`error
      ensures name == value && error == ""
    {
      name := value;
      error := "";
    }

    method ChooseLevel(level: string)
      modifies this`difficulty
      ensures difficulty == level
    {
      difficulty := level;
    }

    /** `handleSubmit`.  `completed` says whether `onComplete` was called:
        exactly when the name is valid, and then the store holds the
        trimmed name and the chosen level on the user; otherwise only the
        error changes. */
    method Submit(store: Store) returns (completed: bool)
      modifies this`error, store`user, store`isUserSetup
      ensures completed <==> Validate(name).Accepted?
      ensures !completed ==> error == Message(Validate(name).reason)
                             && store.user == old(store.user) && store.isUserSetup == old(store.isUserSetup)
      ensures completed ==> error == old(error) && store.isUserSetup
                            && store.user == Some(WithDefaults(Renamed(old(store.user), Validate(name).trimmed, difficulty)))
    {
      var v := Validate(name);
      if v.Accepted? {
        store.SetUser(Renamed(store.user, v.trimmed, difficulty));
        completed := true;
      } else {
        error := Message(v.reason);
        completed := false;
      }
    }
  }
}
