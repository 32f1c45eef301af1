/** The chat page of the front end: the offline knowledge base used when the
    relay does not answer, the personality wrapping of offline answers, and the
    message list that sending and clearing update. */
module AiChatPage {
  import opened Common

  // ---------------------------------------------------------------------
  // Offline knowledge base
  // ---------------------------------------------------------------------

  /** A condition over the lower-cased question, as written in one branch of
      the offline chain (`&&` binding tighter than `||`). */
  datatype Cond = Has(word: string) | Or(left: Cond, right: Cond) | And(left: Cond, right: Cond) | Not(arg: Cond)

  predicate Holds(c: Cond, q: string)
  {
    match c
    case Has(w) => Contains(q, w)
    case Or(a, b) => Holds(a, q) || Holds(b, q)
    case And(a, b) => Holds(a, q) && Holds(b, q)
    case Not(a) => !Holds(a, q)
  }

  const BlackHoleAnswer := "Black holes are regions of spacetime where gravity is so strong that nothing, not even light, can escape once it crosses the event horizon. They form when massive stars (over 20-25 times the mass of our Sun) collapse at the end of their lives. The event horizon is the 'point of no return' - once matter crosses this boundary, it inevitably falls toward the singularity at the center where our current understanding of physics breaks down."
  const StarshipAnswer := "SpaceX Starship is a fully reusable spacecraft designed for missions to Mars and beyond. Standing 50 meters tall, it's powered by Raptor engines that burn liquid methane and liquid oxygen. Starship can carry up to 100-150 tons to low Earth orbit and is designed to be refueled in space for longer missions. It represents a major step toward making space travel more cost-effective and enabling human settlement on Mars."
  const ExoplanetAnswer := "Exoplanets are planets that orbit stars outside our solar system. We've discovered over 5,000 confirmed exoplanets using methods like: 1) Transit method - watching for dimming when planets cross in front of their stars, 2) Radial velocity - detecting the gravitational 'wobble' planets cause in their stars, 3) Direct imaging - actually photographing the planets (very rare), and 4) Gravitational microlensing. Some exoplanets are in the 'habitable zone' where liquid water could exist!"
  const WebbAnswer := "The James Webb Space Telescope (JWST) is the most powerful space telescope ever built. Launched in 2021, it observes in infrared light and has a 6.5-meter segmented mirror - much larger than Hubble's 2.4-meter mirror. JWST can see the most distant galaxies in the universe, study the atmospheres of exoplanets, and observe star formation in unprecedented detail. It's positioned at the L2 Lagrange point, 1.5 million km from Earth."
  const NeutronStarAnswer := "Neutron stars are incredibly dense remnants of massive stars that exploded as supernovas. They pack the mass of 1.5-2 Suns into a sphere only about 20 km across! A teaspoon of neutron star material would weigh about 6 billion tons on Earth. They have the strongest magnetic fields in the universe (trillions of times stronger than Earth's) and can spin hundreds of times per second. Some neutron stars are pulsars, emitting beams of radiation like cosmic lighthouses."
  const MarsAnswer := "Mars is our neighboring red planet, about half the size of Earth. It has polar ice caps, the largest volcano in the solar system (Olympus Mons), and evidence of ancient water flows. Current missions include NASA's Perseverance rover searching for signs of ancient life, and the Ingenuity helicopter - the first powered aircraft on another planet! Mars has a thin atmosphere (mostly CO2) and temperatures ranging from -195°F to 70°F. Future human missions are planned for the 2030s."
  const SunAnswer := "Our Sun is a middle-aged, medium-sized star that's been shining for about 4.6 billion years. It converts 600 million tons of hydrogen into helium every second through nuclear fusion, releasing enormous amounts of energy. The Sun's core reaches 15 million°C! Stars form in nebulae when gravity pulls gas and dust together until nuclear fusion ignites. Depending on their mass, stars can live for millions to trillions of years before dying as white dwarfs, neutron stars, or black holes."
  const GalaxyAnswer := "Our Milky Way galaxy contains over 100 billion stars and is about 100,000 light-years across. It's just one of trillions of galaxies in the observable universe! The nearest major galaxy is Andromeda, 2.5 million light-years away - it's actually approaching us and will collide with the Milky Way in about 4.5 billion years. The universe is about 13.8 billion years old and is still expanding, with dark matter and dark energy making up about 95% of everything that exists!"
  const MissionsAnswer := "Space agencies like NASA, ESA, and others have sent amazing missions throughout the solar system! Examples include: Voyager 1 & 2 (now in interstellar space), Cassini (studied Saturn for 13 years), New Horizons (flew by Pluto), and Parker Solar Probe (touching the Sun's corona). Current exciting missions include Artemis (returning humans to the Moon), Europa Clipper (studying Jupiter's icy moon), and the upcoming Dragonfly mission to Saturn's moon Titan!"
  const SupernovaAnswer := "Supernovas are spectacular stellar explosions that can briefly outshine entire galaxies! They occur when massive stars run out of nuclear fuel and collapse catastrophically, or when white dwarf stars accumulate too much matter from a companion. These explosions create and scatter heavy elements like carbon, oxygen, and iron throughout space - elements that are essential for planets and life. The shock waves can trigger the formation of new stars!"
  const LensingAnswer := "Gravitational lensing is a fascinating effect where massive objects bend spacetime so much that they act like cosmic magnifying glasses! When light from distant galaxies passes by massive galaxy clusters, the light gets bent and distorted, sometimes creating multiple images or ring-like shapes called 'Einstein rings.' This effect helps us study dark matter and discover extremely distant galaxies we couldn't otherwise see."
  const RocketsAnswer := "Rockets work by Newton's third law - for every action, there's an equal and opposite reaction. They burn fuel to create hot gas that shoots out the back, pushing the rocket forward. Modern rockets use liquid fuels like hydrogen and oxygen, or solid fuels. Ion drives use electricity to accelerate particles for very efficient (but slow) propulsion. Future concepts include nuclear rockets, solar sails, and even theoretical fusion ramjets for interstellar travel!"
  const RelativityAnswer := "Einstein's relativity shows us that time and space are connected! Time passes slower in strong gravitational fields (like near black holes) and when traveling at high speeds. For astronauts on the International Space Station, time actually passes slightly faster than on Earth's surface because they're farther from our planet's gravity well. This isn't science fiction - GPS satellites have to account for these time differences to work accurately!"
  const GeneralSpaceAnswer := "Space is an incredible frontier filled with wonders beyond imagination! From the quantum foam at the smallest scales to galaxy superclusters spanning billions of light-years, the universe operates on scales that challenge our understanding. We're made of stellar material - the calcium in our bones, the iron in our blood, and the oxygen we breathe were all forged in the nuclear furnaces of ancient stars. As Carl Sagan said, 'We are made of star stuff!'"
  const DefaultAnswer := "That's an interesting question! While I specialize in space and astronomy topics, I'd love to help you explore the cosmos. Try asking me about black holes, planets, stars, galaxies, space missions, rockets, or any other space-related phenomena. The universe is full of amazing discoveries waiting to be discussed! 🌌"
  const Greeting := "Hello! I'm AstroBot, your advanced space exploration assistant! Ask me anything about the cosmos, planets, stars, galaxies, space missions, astrophysics, or space exploration! 🌌"
  const Apology := "I apologize, but I'm having trouble processing your question right now. Please try rephrasing it, and I'll do my best to help you explore the cosmos! 🚀"

  /** The conditions of the fourteen branches of the offline chain, in source
      order.  The third and seventh are parsed the way JavaScript parses them:
      `exoplanet || (planet && (other || detect))` and `sun || (star && !neutron)`. */
  const Conditions: seq<Cond> := [
    Has("black hole"),
    Or(Has("spacex"), Has("starship")),
    Or(Has("exoplanet"), And(Has("planet"), Or(Has("other"), Has("detect")))),
    Or(Has("james webb"), Or(Has("jwst"), Has("telescope"))),
    Has("neutron star"),
    Has("mars"),
    Or(Has("sun"), And(Has("star"), Not(Has("neutron")))),
    Or(Has("galaxy"), Or(Has("universe"), Has("cosmic"))),
    Or(Has("mission"), Or(Has("nasa"), Has("esa"))),
    Or(Has("supernova"), Has("explosion")),
    Or(Has("gravity"), Or(Has("gravitational"), Has("lensing"))),
    Or(Has("rocket"), Has("propulsion")),
    Or(Has("time"), Has("relativity")),
    Or(Has("space"), Or(Has("cosmos"), Has("astronomy")))
  ]

  /** The answers of the fourteen branches, in the same order. */
  const Answers: seq<string> := [
    BlackHoleAnswer, StarshipAnswer, ExoplanetAnswer, WebbAnswer, NeutronStarAnswer,
    MarsAnswer, SunAnswer, GalaxyAnswer, MissionsAnswer, SupernovaAnswer,
    LensingAnswer, RocketsAnswer, RelativityAnswer, GeneralSpaceAnswer
  ]

  /** Index of the branch taken for the lower-cased question `q`, or -1 for the default. */
  function Branch(q: string): (k: int)
    ensures -1 <= k < |Conditions|
  {
    FindIndex(Conditions, (c: Cond) => Holds(c, q))
  }

  /** `getOfflineSpaceResponse`: the answer of the first branch whose
      condition holds on the lower-cased question, else the default answer. */
  function OfflineSpaceResponse(question: string): (r: string)
    ensures r != ""
    ensures r == DefaultAnswer <==> forall k :: 0 <= k < |Conditions| ==> !Holds(Conditions[k], ToLower(question))
  {
    var k := Branch(ToLower(question));
    AnswersNotDefault();
    if k == -1 then DefaultAnswer else Answers[k]
  }

  /** No branch answers with the default text, and no answer is empty. */
  lemma AnswersNotDefault()
    ensures |Answers| == |Conditions|
    ensures forall i :: 0 <= i < |Answers| ==> Answers[i] != DefaultAnswer && Answers[i] != ""
    ensures DefaultAnswer != ""
  {
    assert |BlackHoleAnswer| == 439;
    assert |StarshipAnswer| == 419;
    assert |ExoplanetAnswer| == 486;
    assert |WebbAnswer| == 431;
    assert |NeutronStarAnswer| == 467;
    assert |MarsAnswer| == 481;
    assert |SunAnswer| == 486;
    assert |GalaxyAnswer| == 472;
    assert |MissionsAnswer| == 458;
    assert |SupernovaAnswer| == 450;
    assert |LensingAnswer| == 425;
    assert |RocketsAnswer| == 463;
    assert |RelativityAnswer| == 449;
    assert |GeneralSpaceAnswer| == 455;
    assert |DefaultAnswer| == 315;
  }

  /** An earlier branch always wins: if branch `i` holds, the answer is that
      of some branch `k <= i` that holds, with no branch before `k` holding. */
  lemma OfflineFirstMatch(question: string, i: nat)
    requires i < |Conditions| && Holds(Conditions[i], ToLower(question))
    ensures exists k :: 0 <= k <= i && OfflineSpaceResponse(question) == Answers[k]
                        && Holds(Conditions[k], ToLower(question))
                        && forall j :: 0 <= j < k ==> !Holds(Conditions[j], ToLower(question))
  {
    var k := Branch(ToLower(question));
    assert 0 <= k <= i;
  }

  /** Branch `k` is taken exactly when its condition holds and none before it does. */
  lemma BranchIff(q: string, k: nat)
    requires k < |Conditions|
    ensures Branch(q) == k
            <==> Holds(Conditions[k], q) && forall j :: 0 <= j < k ==> !Holds(Conditions[j], q)
  {
  }

  /** On a lower-cased question `q` whose first two branches fail, "exoplanet"
      alone selects the exoplanet branch, while "planet" needs "other" or
      "detect" as well. */
  lemma ExoplanetPrecedence(q: string)
    requires !Holds(Conditions[0], q) && !Holds(Conditions[1], q)
    ensures Contains(q, "exoplanet") ==> Branch(q) == 2
    ensures Contains(q, "planet") && Contains(q, "other") ==> Branch(q) == 2
    ensures Contains(q, "planet") && Contains(q, "detect") ==> Branch(q) == 2
    ensures !Contains(q, "exoplanet") && !Contains(q, "other") && !Contains(q, "detect") ==> Branch(q) != 2
  {
    ExoplanetCondition(q);
    BranchIff(q, 2);
  }

  /** The exoplanet branch's condition. */
  lemma ExoplanetCondition(q: string)
    ensures Holds(Conditions[2], q)
            <==> Contains(q, "exoplanet") || (Contains(q, "planet") && (Contains(q, "other") || Contains(q, "detect")))
  {
    var qualifier := Or(Has("other"), Has("detect"));
    assert Holds(qualifier, q) <==> Contains(q, "other") || Contains(q, "detect");
    assert Holds(And(Has("planet"), qualifier), q) <==> Contains(q, "planet") && Holds(qualifier, q);
  }

  /** On a lower-cased question `q` whose first six branches fail, "sun" alone
      selects the star branch, while "star" needs the absence of "neutron". */
  lemma SunPrecedence(q: string)
    requires forall j :: 0 <= j < 6 ==> !Holds(Conditions[j], q)
    ensures Contains(q, "sun") ==> Branch(q) == 6
    ensures Contains(q, "star") && !Contains(q, "neutron") ==> Branch(q) == 6
    ensures !Contains(q, "sun") && Contains(q, "neutron") ==> Branch(q) != 6
  {
    SunCondition(q);
    BranchIff(q, 6);
  }

  /** The star branch's condition. */
  lemma SunCondition(q: string)
    ensures Holds(Conditions[6], q) <==> Contains(q, "sun") || (Contains(q, "star") && !Contains(q, "neutron"))
  {
    assert Holds(Not(Has("neutron")), q) <==> !Contains(q, "neutron");
    assert Holds(And(Has("star"), Not(Has("neutron"))), q) <==> Contains(q, "star") && !Contains(q, "neutron");
  }

  /** A question mentioning a black hole gets the black-hole answer, whatever
      else it mentions. */
  lemma BlackHoleFirst(question: string)
    requires Contains(ToLower(question), "black hole")
    ensures OfflineSpaceResponse(question) == BlackHoleAnswer
  {
    BranchIff(ToLower(question), 0);
  }

  /** Matching ignores ASCII case. */
  lemma OfflineIgnoresCase(question: string)
    ensures OfflineSpaceResponse(ToLower(question)) == OfflineSpaceResponse(question)
  {
    ToLowerIdempotent(question);
  }

  // ---------------------------------------------------------------------
  // Smart response
  // ---------------------------------------------------------------------

  const Prefixes: seq<string> := [
    "That's a fascinating question! ",
    "Great question! ",
    "I love talking about this topic! ",
    "This is one of my favorite space topics! ",
    "Excellent question! ",
    ""
  ]

  const Suffixes: seq<string> := [
    " What else would you like to know about space?",
    " Feel free to ask me more about the cosmos!",
    " Is there anything specific about this topic you'd like to explore?",
    " The universe is full of amazing phenomena!",
    " Space never ceases to amaze me!",
    ""
  ]

  /** `generateSmartResponse`.  `server` is what the relay returned (`None` for
      `null`/`undefined`); `prefix` and `suffix` are the two random picks, each
      `Math.floor(Math.random() * 6)`. */
  function SmartResponse(userInput: string, server: Option<string>, prefix: nat, suffix: nat): (r: string)
    requires prefix < |Prefixes| && suffix < |Suffixes|
    ensures server.Some? && server.value != "" ==> r == server.value
  {
    if server.Some? && server.value != "" then server.value
    else Prefixes[prefix] + OfflineSpaceResponse(ToLower(userInput)) + Suffixes[suffix]
  }

  /** Without a server reply, the answer is one of the offline answers wrapped
      in one of the six prefixes and one of the six suffixes, so it is never
      empty and it contains the offline answer for the question. */
  lemma SmartResponseOffline(userInput: string, server: Option<string>, prefix: nat, suffix: nat)
    requires prefix < |Prefixes| && suffix < |Suffixes|
    requires server.None? || server.value == ""
    ensures var r := SmartResponse(userInput, server, prefix, suffix);
            r == Prefixes[prefix] + OfflineSpaceResponse(userInput) + Suffixes[suffix]
            && r[..|Prefixes[prefix]|] == Prefixes[prefix]
            && r[|r| - |Suffixes[suffix]|..] == Suffixes[suffix]
            && Contains(r, OfflineSpaceResponse(userInput))
            && r != ""
  {
    OfflineIgnoresCase(userInput);
    var pre, answer, post := Prefixes[prefix], OfflineSpaceResponse(userInput), Suffixes[suffix];
    assert SmartResponse(userInput, server, prefix, suffix) == pre + answer + post;
    WrappedEnds(pre, answer, post);
    ContainsInfix(pre, answer, post);
  }

  /** A text wrapped between two others starts with the first and ends with
      the last, and is not empty when the middle is not. */
  lemma WrappedEnds(pre: string, answer: string, post: string)
    requires answer != []
    ensures var r := pre + answer + post;
            r[..|pre|] == pre && r[|r| - |post|..] == post && r != ""
  {
    var r := pre + answer + post;
    assert r[..|pre|] == pre;
    assert r[|r| - |post|..] == post;
  }

  // ---------------------------------------------------------------------
  // The message list
  // ---------------------------------------------------------------------

  datatype Sender = User | Bot

  datatype Message = Message(id: nat, text: string, sender: Sender)

  /** JavaScript's `String.prototype.trim`. */
  function JsTrim(s: string): string
  {
    TrimWith(s, IsJsSpace)
  }

  /** The reply shown for the settled response: its text, or the apology
      when it was rejected. */
  function BotReply(response: Option<string>): (r: string)
    ensures response.Some? ==> r == response.value
    ensures response.None? ==> r == Apology
  {
    if response.Some? then response.value else Apology
  }

  /** The page's chat state: the message list, the input box and the loading flag. */
  class ChatPage {
    var messages: seq<Message>
    var input: string
    var loading: bool

    /** Every message's id is its position plus one. */
    predicate IdsArePositions()
      reads this
    {
      forall i :: 0 <= i < |messages| ==> messages[i].id == i + 1
    }

    /** The page opens with the single greeting. */
    constructor()
      ensures messages == [Message(1, Greeting, Bot)] && input == "" && !loading
      ensures IdsArePositions()
    {
      messages := [Message(1, Greeting, Bot)];
      input := "";
      loading := false;
    }

    /** Typing, or picking a quick suggestion. */
    method SetInput(text: string)
      modifies this
      ensures input == text && messages == old(messages) && loading == old(loading)
    {
      input := text;
    }

    /** `handleSendMessage`, run to completion.  `response` is the settled
        value of `generateSmartResponse`: `Some` text, or `None` if it was
        rejected, which yields the apology.  A blank input changes nothing;
        otherwise the trimmed user message and exactly one bot message are
        appended, with ids one and two past the old length. */
    method SendMessage(response: Option<string>)
      modifies this
      ensures JsTrim(old(input)) == "" ==> messages == old(messages) && input == old(input) && loading == old(loading)
      ensures JsTrim(old(input)) != "" ==>
                messages == old(messages)
                            + [Message(|old(messages)| + 1, JsTrim(old(input)), User),
                               Message(|old(messages)| + 2, BotReply(response), Bot)]
                && input == "" && !loading
      ensures old(IdsArePositions()) ==> IdsArePositions()
    {
      var text := JsTrim(input);
      if text == "" {
        return;
      }
      var n := |messages|;
      ghost var before := messages;
      var user := Message(n + 1, text, User);
      messages := messages + [user];
      input := "";
      loading := true;
      var botText := BotReply(response);
      var bot := Message(n + 2, botText, Bot);
      messages := messages + [bot];
      loading := false;
      AppendTwo(before, user, bot);
      assert messages == before + [user, bot];
      if forall i :: 0 <= i < |before| ==> before[i].id == i + 1 {
        AppendPairKeepsIds(before, text, botText);
        assert IdsArePositions();
      }
    }

    /** `clearChat`: the greeting alone, with id 1. */
    method ClearChat()
      modifies this
      ensures messages == [Message(1, Greeting, Bot)] && input == old(input) && loading == old(loading)
      ensures IdsArePositions()
    {
      messages := [Message(1, Greeting, Bot)];
    }
  }

  /** Appending a user message and its reply keeps ids equal to positions. */
  lemma {:induction false} AppendPairKeepsIds(ms: seq<Message>, user: string, bot: string)
    requires forall i :: 0 <= i < |ms| ==> ms[i].id == i + 1
    ensures var ms' := ms + [Message(|ms| + 1, user, User), Message(|ms| + 2, bot, Bot)];
            |ms'| == |ms| + 2 && forall i :: 0 <= i < |ms'| ==> ms'[i].id == i + 1
  {
    var ms' := ms + [Message(|ms| + 1, user, User), Message(|ms| + 2, bot, Bot)];
    forall i | 0 <= i < |ms'| ensures ms'[i].id == i + 1 {
      if i < |ms| {
        assert ms'[i] == ms[i];
      }
    }
  }
}
