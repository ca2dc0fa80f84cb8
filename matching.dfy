/**
 * The recommendation engine: four compatibility sub-scores (skills,
 * interests, availability, remote preference), their weighted sum plus a
 * workload bonus, and the ranked, capacity-filtered list of open
 * opportunities recommended to a volunteer.
 */
module Matching {
  import opened Wrappers
  import opened Text
  import opened Opportunities
  import opened Scheduling
  import opened Ranking

  // ---------------------------------------------------------------------
  // Skills overlap
  // ---------------------------------------------------------------------

  /** Each piece stripped and lower-cased. */
  function NormalizePieces(pieces: seq<string>): (tokens: seq<string>)
    ensures |tokens| == |pieces|
  {
    if pieces == [] then [] else [Lower(Strip(pieces[0]))] + NormalizePieces(pieces[1..])
  }

  lemma {:induction false} NormalizedPieceAt(pieces: seq<string>, k: nat)
    requires k < |pieces|
    ensures NormalizePieces(pieces)[k] == Lower(Strip(pieces[k]))
  {
    if k > 0 {
      NormalizedPieceAt(pieces[1..], k - 1);
    }
  }

  /** The comma-separated entries of a skill text, each stripped and lower-cased. */
  function SkillTokens(text: string): (tokens: seq<string>)
    ensures |tokens| == |SplitComma(text)| >= 1
  {
    NormalizePieces(SplitComma(text))
  }

  /**
   * A required token is matched when it is one of the volunteer's tokens or
   * occurs anywhere in the volunteer's lower-cased text.
   */
  predicate TokenMatched(required: string, volunteerTokens: seq<string>, volunteerText: string) {
    required in volunteerTokens || Contains(volunteerText, required)
  }

  /** How many of the required tokens are matched. */
  function MatchCount(required: seq<string>, volunteerTokens: seq<string>, volunteerText: string): (n: nat)
    ensures n <= |required|
  {
    if required == [] then 0
    else
      MatchCount(required[..|required| - 1], volunteerTokens, volunteerText)
        + (if TokenMatched(required[|required| - 1], volunteerTokens, volunteerText) then 1 else 0)
  }

  /** Python's `min(a, b)` on two numbers. */
  function MinReal(a: real, b: real): real {
    if b < a then b else a
  }

  /**
   * `calculate_skills_overlap`: the share of required tokens that the
   * volunteer's skills match, 0.0 when either text is empty.
   */
  function SkillsOverlap(volunteerSkills: string, requiredSkills: string): (score: real)
    ensures 0.0 <= score <= 1.0
  {
    if volunteerSkills == "" || requiredSkills == "" then 0.0
    else
      var volunteerTokens := SkillTokens(volunteerSkills);
      var requiredTokens := SkillTokens(requiredSkills);
      var totalRequired := if |requiredTokens| > 0 then |requiredTokens| else 1;
      var matches := MatchCount(requiredTokens, volunteerTokens, Lower(volunteerSkills));
      ShareBounds(matches, totalRequired);
      if totalRequired > 0 then MinReal(matches as real / totalRequired as real, 1.0) else 0.0
  }

  /** `calculate_skills_overlap`: the tokens, the counting loop and the share. */
  method CalculateSkillsOverlap(volunteerSkills: string, requiredSkills: string) returns (score: real)
    ensures score == SkillsOverlap(volunteerSkills, requiredSkills)
  {
    if volunteerSkills == "" || requiredSkills == "" {
      return 0.0;
    }
    var volunteerSkillList := SkillTokens(volunteerSkills);
    var requiredSkillList := SkillTokens(requiredSkills);
    var volunteerSkillsText := Lower(volunteerSkills);
    var matches := CountMatchedSkills(requiredSkillList, volunteerSkillList, volunteerSkillsText);
    var totalRequired := if |requiredSkillList| > 0 then |requiredSkillList| else 1;
    score := if totalRequired > 0 then MinReal(matches as real / totalRequired as real, 1.0) else 0.0;
  }

  /** The `matches += 1` loop of `calculate_skills_overlap`, over the required tokens. */
  method CountMatchedSkills(requiredSkillList: seq<string>, volunteerSkillList: seq<string>, volunteerSkillsText: string)
    returns (matches: nat)
    ensures matches == MatchCount(requiredSkillList, volunteerSkillList, volunteerSkillsText)
  {
    matches := 0;
    var i := 0;
    while i < |requiredSkillList|
      invariant 0 <= i <= |requiredSkillList|
      invariant matches == MatchCount(requiredSkillList[..i], volunteerSkillList, volunteerSkillsText)
    {
      var requiredSkill := requiredSkillList[i];
      if requiredSkill in volunteerSkillList || Contains(volunteerSkillsText, requiredSkill) {
        matches := matches + 1;
      }
      assert requiredSkillList[..i + 1][..i] == requiredSkillList[..i];
      i := i + 1;
    }
    assert requiredSkillList[..i] == requiredSkillList;
  }

  /** The count reaches the number of tokens iff every token is matched, and is zero iff none is. */
  lemma {:induction false} MatchCountExtremes(required: seq<string>, volunteerTokens: seq<string>, volunteerText: string)
    ensures MatchCount(required, volunteerTokens, volunteerText) == |required|
        <==> forall k :: 0 <= k < |required| ==> TokenMatched(required[k], volunteerTokens, volunteerText)
    ensures MatchCount(required, volunteerTokens, volunteerText) == 0
        <==> forall k :: 0 <= k < |required| ==> !TokenMatched(required[k], volunteerTokens, volunteerText)
  {
    if required != [] {
      var init := required[..|required| - 1];
      MatchCountExtremes(init, volunteerTokens, volunteerText);
      assert forall k :: 0 <= k < |init| ==> init[k] == required[k];
    }
  }

  /**
   * The skills score is 0.0 when either text is empty and otherwise the
   * matched share of the required tokens (the `min` never clips).
   */
  lemma SkillsOverlapRange(volunteerSkills: string, requiredSkills: string)
    ensures volunteerSkills == "" || requiredSkills == "" ==> SkillsOverlap(volunteerSkills, requiredSkills) == 0.0
    ensures volunteerSkills != "" && requiredSkills != "" ==>
      var required := SkillTokens(requiredSkills);
      SkillsOverlap(volunteerSkills, requiredSkills)
        == MatchCount(required, SkillTokens(volunteerSkills), Lower(volunteerSkills)) as real / |required| as real
  {
    if volunteerSkills != "" && requiredSkills != "" {
      var required := SkillTokens(requiredSkills);
      var matches := MatchCount(required, SkillTokens(volunteerSkills), Lower(volunteerSkills));
      ShareBounds(matches, |required|);
    }
  }

  /** A count out of a positive total is a share in [0, 1], at the ends exactly for none and all. */
  lemma ShareBounds(count: nat, total: nat)
    requires 0 < total && count <= total
    ensures 0.0 <= count as real / total as real <= 1.0
    ensures count as real / total as real == 1.0 <==> count == total
    ensures count as real / total as real == 0.0 <==> count == 0
  {
    assert count as real <= total as real;
    assert (count as real / total as real) * total as real == count as real;
  }

  /** Every volunteer token occurs in the volunteer's lower-cased text. */
  lemma TokenOccursInText(text: string, k: nat)
    requires k < |SkillTokens(text)|
    ensures Contains(Lower(text), SkillTokens(text)[k])
  {
    var piece := SplitComma(text)[k];
    var offset := SplitPieceOffset(text, k);
    NormalizedPieceAt(SplitComma(text), k);
    StrippedPieceOccurs(piece, text, offset);
  }

  /** The stripped, lower-cased form of a piece of `text` occurs in the lower-cased text. */
  lemma StrippedPieceOccurs(piece: string, text: string, offset: nat)
    requires OccursAt(piece, text, offset)
    ensures Contains(Lower(text), Lower(Strip(piece)))
  {
    var at := StrippedPieceAt(piece, text, offset);
    OccursLower(Strip(piece), text, at);
    ContainsFromOccurrence(Lower(text), Lower(Strip(piece)), at);
  }

  /** The stripped form of a piece of `text` occurs in `text`; `at` is where. */
  lemma StrippedPieceAt(piece: string, text: string, offset: nat) returns (at: nat)
    requires OccursAt(piece, text, offset)
    ensures OccursAt(Strip(piece), text, at)
  {
    at := LeadingSpaces(piece) + offset;
    OccursTransitive(Strip(piece), piece, text, LeadingSpaces(piece), offset);
  }

  /**
   * The "exact token" half of the match test adds nothing: a required token
   * is matched exactly when it occurs in the volunteer's lower-cased text.
   */
  lemma TokenMatchIsSubstringMatch(required: string, volunteerSkills: string)
    ensures TokenMatched(required, SkillTokens(volunteerSkills), Lower(volunteerSkills))
        <==> Contains(Lower(volunteerSkills), required)
  {
    var tokens := SkillTokens(volunteerSkills);
    if required in tokens {
      var k :| 0 <= k < |tokens| && tokens[k] == required;
      TokenOccursInText(volunteerSkills, k);
    }
  }

  /** Full marks exactly when both texts are given and every required token is matched. */
  lemma SkillsOverlapFull(volunteerSkills: string, requiredSkills: string)
    ensures SkillsOverlap(volunteerSkills, requiredSkills) == 1.0 <==>
      && volunteerSkills != "" && requiredSkills != ""
      && forall k :: 0 <= k < |SkillTokens(requiredSkills)| ==>
           Contains(Lower(volunteerSkills), SkillTokens(requiredSkills)[k])
  {
    var required := SkillTokens(requiredSkills);
    var matches := MatchCount(required, SkillTokens(volunteerSkills), Lower(volunteerSkills));
    SkillsOverlapRange(volunteerSkills, requiredSkills);
    ShareBounds(matches, |required|);
    MatchCountExtremes(required, SkillTokens(volunteerSkills), Lower(volunteerSkills));
    forall k | 0 <= k < |required| {
      TokenMatchIsSubstringMatch(required[k], volunteerSkills);
    }
  }

  /** Zero exactly when a text is empty or no required token is matched. */
  lemma SkillsOverlapZero(volunteerSkills: string, requiredSkills: string)
    ensures SkillsOverlap(volunteerSkills, requiredSkills) == 0.0 <==>
      || volunteerSkills == "" || requiredSkills == ""
      || forall k :: 0 <= k < |SkillTokens(requiredSkills)| ==>
           !Contains(Lower(volunteerSkills), SkillTokens(requiredSkills)[k])
  {
    var required := SkillTokens(requiredSkills);
    var matches := MatchCount(required, SkillTokens(volunteerSkills), Lower(volunteerSkills));
    SkillsOverlapRange(volunteerSkills, requiredSkills);
    ShareBounds(matches, |required|);
    MatchCountExtremes(required, SkillTokens(volunteerSkills), Lower(volunteerSkills));
    forall k | 0 <= k < |required| {
      TokenMatchIsSubstringMatch(required[k], volunteerSkills);
    }
  }

  /** A skill text fully covers itself: every token of it occurs in it. */
  lemma SelfOverlapIsOne(skills: string)
    requires skills != ""
    ensures SkillsOverlap(skills, skills) == 1.0
  {
    forall k | 0 <= k < |SkillTokens(skills)|
      ensures Contains(Lower(skills), SkillTokens(skills)[k])
    {
      TokenOccursInText(skills, k);
    }
    SkillsOverlapFull(skills, skills);
  }

  /** The tokens of a two-entry skill text. */
  lemma TwoTokens(first: string, second: string)
    requires ',' !in first && ',' !in second
    ensures SkillTokens(first + [','] + second) == [Lower(Strip(first)), Lower(Strip(second))]
  {
    var pieces := SplitComma(first + [','] + second);
    SplitAtFirstComma(first, second);
    SplitNoComma(second);
    NormalizedPieceAt(pieces, 0);
    NormalizedPieceAt(pieces, 1);
  }

  /** 1 when the token occurs in the volunteer's lower-cased text, else 0. */
  function Hit(volunteerSkills: string, token: string): nat {
    if Contains(Lower(volunteerSkills), token) then 1 else 0
  }

  /** Against two required entries the score is the number of entries found, halved. */
  lemma TwoEntryOverlap(volunteerSkills: string, first: string, second: string)
    requires volunteerSkills != ""
    requires ',' !in first && ',' !in second
    ensures SkillsOverlap(volunteerSkills, first + [','] + second)
         == (Hit(volunteerSkills, Lower(Strip(first))) + Hit(volunteerSkills, Lower(Strip(second)))) as real / 2.0
  {
    var requiredSkills := first + [','] + second;
    var required := SkillTokens(requiredSkills);
    var tokens, text := SkillTokens(volunteerSkills), Lower(volunteerSkills);
    TwoTokens(first, second);
    TokenMatchIsSubstringMatch(required[0], volunteerSkills);
    TokenMatchIsSubstringMatch(required[1], volunteerSkills);
    assert required[..1] == [required[0]];
    assert MatchCount(required[..1], tokens, text) == Hit(volunteerSkills, required[0]);
    var matches := MatchCount(required, tokens, text);
    assert matches == Hit(volunteerSkills, required[0]) + Hit(volunteerSkills, required[1]);
    assert requiredSkills != "";
    SkillsOverlapRange(volunteerSkills, requiredSkills);
    assert SkillsOverlap(volunteerSkills, requiredSkills) == matches as real / |required| as real;
    ShareOfTwo(matches, |required|);
    assert required[0] == Lower(Strip(first)) && required[1] == Lower(Strip(second));
    assert matches == Hit(volunteerSkills, Lower(Strip(first))) + Hit(volunteerSkills, Lower(Strip(second)));
  }

  /** A count out of a total of two is half the count. */
  lemma ShareOfTwo(count: nat, total: nat)
    requires total == 2
    ensures count as real / total as real == count as real / 2.0
  {
  }

  /**
   * Some but not all required entries found: a score strictly between 0 and 1
   * (the partial-match case).
   */
  lemma SkillsOverlapPartial(volunteerSkills: string, requiredSkills: string)
    ensures 0.0 < SkillsOverlap(volunteerSkills, requiredSkills) < 1.0 <==>
      && volunteerSkills != "" && requiredSkills != ""
      && (exists k :: 0 <= k < |SkillTokens(requiredSkills)| && Contains(Lower(volunteerSkills), SkillTokens(requiredSkills)[k]))
      && (exists k :: 0 <= k < |SkillTokens(requiredSkills)| && !Contains(Lower(volunteerSkills), SkillTokens(requiredSkills)[k]))
  {
    SkillsOverlapRange(volunteerSkills, requiredSkills);
    SkillsOverlapFull(volunteerSkills, requiredSkills);
    SkillsOverlapZero(volunteerSkills, requiredSkills);
  }

  /**
   * A trailing comma adds an empty required entry, which is always matched
   * because the empty string occurs in every text: one real entry followed
   * by a comma never scores below one half.
   */
  lemma TrailingCommaCountsAsMatch(volunteerSkills: string, entry: string)
    requires volunteerSkills != "" && ',' !in entry
    ensures SkillsOverlap(volunteerSkills, entry + [',']) >= 0.5
    ensures SkillsOverlap(volunteerSkills, entry + [','])
         == if Contains(Lower(volunteerSkills), Lower(Strip(entry))) then 1.0 else 0.5
  {
    StripUnpadded("");
    EmptyIsContained(Lower(volunteerSkills));
    TwoEntryOverlap(volunteerSkills, entry, "");
    assert entry + [','] + "" == entry + [','];
  }

  /** The token of the required entry "Python". */
  lemma ScenarioFirstToken(first: string)
    requires first == "Python"
    ensures Lower(Strip(first)) == "python"
  {
    StripUnpadded(first);
  }

  /** The token of the required entry " C++": the leading blank is stripped. */
  lemma ScenarioSecondToken(second: string)
    requires second == " C++"
    ensures Lower(Strip(second)) == "c++"
  {
    StripOneBlank(second);
  }

  /** The volunteer's skills, lower-cased. */
  lemma ScenarioVolunteerText(volunteerSkills: string)
    requires volunteerSkills == "Python, JavaScript"
    ensures Lower(volunteerSkills) == "python, javascript"
  {
  }

  /** "python" opens the volunteer's lower-cased skills. */
  lemma ScenarioFirstHit(text: string)
    requires text == "python, javascript"
    ensures Contains(text, "python")
  {
    ContainsFromOccurrence(text, "python", 0);
  }

  /** "c++" cannot occur: the volunteer's skills hold no '+'. */
  lemma ScenarioSecondMiss(text: string)
    requires text == "python, javascript"
    ensures !Contains(text, "c++")
  {
    MissingCharNotContained(text, "c++", '+');
  }

  /** Two skill lists that share one of two required entries score one half. */
  lemma PartialSkillsScenario(volunteerSkills: string, requiredSkills: string)
    requires volunteerSkills == "Python, JavaScript" && requiredSkills == "Python, C++"
    ensures SkillsOverlap(volunteerSkills, requiredSkills) == 0.5
  {
    assert requiredSkills == "Python" + [','] + " C++";
    TwoEntryOverlap(volunteerSkills, "Python", " C++");
    ScenarioFirstToken("Python");
    ScenarioSecondToken(" C++");
    ScenarioVolunteerText(volunteerSkills);
    ScenarioFirstHit(Lower(volunteerSkills));
    ScenarioSecondMiss(Lower(volunteerSkills));
  }

  /** A skill list against itself, as in the exact-match case: full marks. */
  lemma ExactSkillsScenario(skills: string)
    requires skills == "Python, JavaScript"
    ensures SkillsOverlap(skills, skills) == 1.0
  {
    SelfOverlapIsOne(skills);
  }

  /** The token of the required entry "Cooking". */
  lemma ScenarioCookingToken(entry: string)
    requires entry == "Cooking"
    ensures Lower(Strip(entry)) == "cooking"
  {
    StripUnpadded(entry);
  }

  /** The token of the required entry " Gardening": the leading blank is stripped. */
  lemma ScenarioGardeningToken(entry: string)
    requires entry == " Gardening"
    ensures Lower(Strip(entry)) == "gardening"
  {
    StripOneBlank(entry);
  }

  /** Both required tokens are longer than the volunteer's six-character text. */
  lemma ScenarioBothMiss(text: string)
    requires |text| == 6
    ensures !Contains(text, "cooking") && !Contains(text, "gardening")
  {
    LongerNotContained(text, "cooking");
    LongerNotContained(text, "gardening");
  }

  /** Neither required entry fits in the six characters of "Python": no match at all. */
  lemma NoMatchSkillsScenario(volunteerSkills: string, requiredSkills: string)
    requires volunteerSkills == "Python" && requiredSkills == "Cooking, Gardening"
    ensures SkillsOverlap(volunteerSkills, requiredSkills) == 0.0
  {
    assert requiredSkills == "Cooking" + [','] + " Gardening";
    TwoEntryOverlap(volunteerSkills, "Cooking", " Gardening");
    ScenarioCookingToken("Cooking");
    ScenarioGardeningToken(" Gardening");
    ScenarioBothMiss(Lower(volunteerSkills));
  }

  // ---------------------------------------------------------------------
  // Interests
  // ---------------------------------------------------------------------

  /** The fixed synonym table, keyed by lower-cased category code. */
  const CategoryKeywords: map<string, seq<string>> := map[
    "education" := ["education", "teaching", "learning", "tutoring"],
    "healthcare" := ["health", "medical", "care", "wellness"],
    "environment" := ["environment", "green", "sustainability", "climate"],
    "community" := ["community", "social", "service", "help"],
    "animals" := ["animal", "pet", "wildlife", "veterinary"],
    "arts" := ["art", "culture", "creative", "music", "theater"],
    "sports" := ["sport", "fitness", "exercise", "athletic"],
    "technology" := ["tech", "computer", "programming", "digital"]
  ]

  /** `category_keywords.get(category, [])`. */
  function KeywordsFor(categoryLower: string): seq<string> {
    if categoryLower in CategoryKeywords then CategoryKeywords[categoryLower] else []
  }

  /**
   * `check_interests_match`: 1.0 when the lower-cased category, or one of its
   * keywords, occurs in the lower-cased interests; 0.0 otherwise and for
   * empty interests.
   */
  function InterestsMatch(interests: string, category: string): (score: real)
    ensures score == 0.0 || score == 1.0
    ensures interests == "" ==> score == 0.0
  {
    if interests == "" then 0.0
    else
      var interestsLower := Lower(interests);
      var categoryLower := Lower(category);
      if Contains(interestsLower, categoryLower) then 1.0
      else if exists k :: 0 <= k < |KeywordsFor(categoryLower)| && Contains(interestsLower, KeywordsFor(categoryLower)[k]) then 1.0
      else 0.0
  }

  /** The keyword search loop of `check_interests_match`, which returns at the first hit. */
  method CheckInterestsMatch(interests: string, category: string) returns (score: real)
    ensures score == InterestsMatch(interests, category)
  {
    if interests == "" {
      return 0.0;
    }
    var interestsLower := Lower(interests);
    var categoryLower := Lower(category);
    if Contains(interestsLower, categoryLower) {
      return 1.0;
    }
    var keywords := KeywordsFor(categoryLower);
    var i := 0;
    while i < |keywords|
      invariant 0 <= i <= |keywords|
      invariant forall k :: 0 <= k < i ==> !Contains(interestsLower, keywords[k])
    {
      if Contains(interestsLower, keywords[i]) {
        return 1.0;
      }
      i := i + 1;
    }
    return 0.0;
  }

  /** The interest score ignores letter case in both the interests and the category. */
  lemma InterestsMatchCaseInsensitive(interests: string, category: string)
    ensures InterestsMatch(interests, category) == InterestsMatch(Lower(interests), Lower(category))
  {
    LowerIdempotent(interests);
    LowerIdempotent(category);
  }

  /** OTHER has no keywords: it matches only interests that mention "other". */
  lemma OtherMatchesOnlyByName(interests: string)
    ensures InterestsMatch(interests, CategoryCode(Other)) == 1.0 <==> Contains(Lower(interests), "other")
  {
    assert CategoryCode(Other) == "OTHER";
    assert Lower("OTHER") == "other";
    assert KeywordsFor("other") == [];
  }

  /** The category name itself found among the interests. */
  lemma InterestsByNameExample(interests: string, category: string)
    requires interests == "Education, Technology" && category == "EDUCATION"
    ensures InterestsMatch(interests, category) == 1.0
  {
    ScenarioInterestsText(interests);
    ScenarioEducation(category);
    ContainsFromOccurrence(Lower(interests), Lower(category), 0);
  }

  /** The lower-cased interests open with "education". */
  lemma ScenarioInterestsText(interests: string)
    requires interests == "Education, Technology"
    ensures Lower(interests)[..9] == "education"
  {
  }

  /** The lower-cased EDUCATION category. */
  lemma ScenarioEducation(category: string)
    requires category == "EDUCATION"
    ensures Lower(category) == "education"
  {
  }

  /** Neither the category name nor any of its keywords among the interests. */
  lemma InterestsNoMatchExample(interests: string, category: string)
    requires interests == "Sports" && category == "EDUCATION"
    ensures InterestsMatch(interests, category) == 0.0
  {
    ScenarioEducation(category);
    var text := Lower(interests);
    var keywords := KeywordsFor("education");
    assert keywords == ["education", "teaching", "learning", "tutoring"];
    forall k | 0 <= k < |keywords|
      ensures !Contains(text, keywords[k])
    {
      LongerNotContained(text, keywords[k]);
    }
    LongerNotContained(text, "education");
  }

  // ---------------------------------------------------------------------
  // Availability and remote preference
  // ---------------------------------------------------------------------

  /**
   * `check_availability_overlap`: neutral 0.5 without declared availability,
   * otherwise 1.0 unless the opportunity has already ended.
   */
  function AvailabilityOverlap(availability: map<string, string>, o: Opportunity, today: Date): (score: real)
    ensures score == 0.0 || score == 0.5 || score == 1.0
  {
    if |availability| == 0 then 0.5
    else if o.startDate > today then 1.0
    else if o.endDate >= today then 1.0
    else 0.0
  }

  /**
   * The availability score is 0.5 exactly when nothing is declared, and 0.0
   * exactly for an opportunity that started and ended before today; for a stored
   * opportunity, 1.0 means exactly that it has not ended.
   */
  lemma AvailabilityCases(availability: map<string, string>, o: Opportunity, today: Date)
    ensures var r := AvailabilityOverlap(availability, o, today);
      && (r == 0.5 <==> |availability| == 0)
      && (r == 0.0 <==> |availability| > 0 && o.startDate <= today && o.endDate < today)
      && (r == 1.0 <==> |availability| > 0 && (o.startDate > today || o.endDate >= today))
    ensures Persisted(o) ==>
      (AvailabilityOverlap(availability, o, today) == 1.0 <==> |availability| > 0 && o.endDate >= today)
  {
  }

  /** `check_location_preference`: 1.0 for a remote opportunity when availability is declared, else 0.5. */
  function LocationPreference(profile: VolunteerProfile, o: Opportunity): (score: real)
    ensures score == 0.5 || score == 1.0
  {
    if |profile.availability| == 0 then 0.5
    else if o.isRemote then 1.0
    else 0.5
  }

  /** Full marks for location exactly for a remote opportunity offered to a volunteer with declared availability. */
  lemma LocationCases(profile: VolunteerProfile, o: Opportunity)
    ensures LocationPreference(profile, o) == 1.0 <==> |profile.availability| > 0 && o.isRemote
  {
  }

  // ---------------------------------------------------------------------
  // Composite score and recommendations
  // ---------------------------------------------------------------------

  const FullFitBonus: real := 10.0
  const PartialFitBonus: real := 5.0

  /** The weighted sum of the four sub-scores; the weights bound it to [5, 90]. */
  function CompatibilityScore(profile: VolunteerProfile, o: Opportunity, today: Date): (score: real)
    ensures 5.0 <= score <= 90.0
  {
    0.0
      + SkillsOverlap(profile.skills, o.requiredSkills) * 40.0
      + InterestsMatch(profile.interests, CategoryCode(o.category)) * 20.0
      + AvailabilityOverlap(profile.availability, o, today) * 20.0
      + LocationPreference(profile, o) * 10.0
  }

  /** The workload bonus: full when the candidate fits in the weekly maximum, partial otherwise. */
  function WorkloadBonus(check: HoursCheck, profile: VolunteerProfile, o: Opportunity): (bonus: real)
    ensures bonus == FullFitBonus || bonus == PartialFitBonus
  {
    if check.currentHours + o.minHoursPerWeek <= profile.maxHoursPerWeek then FullFitBonus else PartialFitBonus
  }

  /**
   * The partial-fit bonus is unreachable for an admitted candidate: the bonus
   * test is the admission test itself.
   */
  lemma PartialFitUnreachable(profile: VolunteerProfile, applications: seq<Application>, o: Opportunity)
    requires CheckHoursLimit(profile.user, Some(profile), applications, o).canApply
    ensures WorkloadBonus(CheckHoursLimit(profile.user, Some(profile), applications, o), profile, o) == FullFitBonus
  {
  }

  /** The open opportunities, in the given (newest-first) order. */
  function OpenOpportunities(opportunities: seq<Opportunity>): (open: seq<Opportunity>)
    ensures |open| <= |opportunities|
    ensures forall o :: o in open <==> o in opportunities && o.status == Open
  {
    if opportunities == [] then []
    else (if opportunities[0].status == Open then [opportunities[0]] else [])
           + OpenOpportunities(opportunities[1..])
  }

  /**
   * The filter keeps the given order: filtering a concatenation filters each
   * part, so an open opportunity listed before another stays before it.
   */
  lemma {:induction false} OpenOpportunitiesConcat(x: seq<Opportunity>, y: seq<Opportunity>)
    ensures OpenOpportunities(x + y) == OpenOpportunities(x) + OpenOpportunities(y)
  {
    if x == [] {
      assert x + y == y;
    } else {
      assert (x + y)[0] == x[0] && (x + y)[1..] == x[1..] + y;
      OpenOpportunitiesConcat(x[1..], y);
    }
  }

  /** One pass of the scoring loop: `None` when the ledger refuses the candidate. */
  function ScoreCandidate(profile: VolunteerProfile, o: Opportunity, applications: seq<Application>, today: Date): Option<Scored> {
    Outcome(CheckHoursLimit(profile.user, Some(profile), applications, o), profile, o, CompatibilityScore(profile, o, today))
  }

  /** The loop body's verdict once the ledger has answered and the sub-scores are summed. */
  function Outcome(check: HoursCheck, profile: VolunteerProfile, o: Opportunity, compatibility: real): Option<Scored>
  {
    if !check.canApply then None
    else Some(Scored(o, compatibility + WorkloadBonus(check, profile, o)))
  }

  /** The entries kept from a sequence of per-candidate outcomes, in order. */
  function Kept(outcomes: seq<Option<Scored>>): (kept: seq<Scored>)
    ensures |kept| <= |outcomes|
  {
    if outcomes == [] then []
    else
      var last := outcomes[|outcomes| - 1];
      Kept(outcomes[..|outcomes| - 1]) + if last.Some? then [last.value] else []
  }

  /** An entry is kept exactly when it is one of the outcomes. */
  lemma {:induction false} KeptMembership(outcomes: seq<Option<Scored>>, x: Scored)
    ensures x in Kept(outcomes) <==> Some(x) in outcomes
  {
    if outcomes != [] {
      var init := outcomes[..|outcomes| - 1];
      KeptMembership(init, x);
      assert outcomes == init + [outcomes[|outcomes| - 1]];
    }
  }

  /** The outcome of the scoring loop's body for each candidate. */
  function Outcomes(profile: VolunteerProfile, candidates: seq<Opportunity>, applications: seq<Application>, today: Date): (outcomes: seq<Option<Scored>>)
    ensures |outcomes| == |candidates|
    ensures forall i :: 0 <= i < |candidates| ==> outcomes[i] == ScoreCandidate(profile, candidates[i], applications, today)
  {
    seq(|candidates|, i requires 0 <= i < |candidates| => ScoreCandidate(profile, candidates[i], applications, today))
  }

  /** The admitted candidates with their scores, in candidate order. */
  function ScoredCandidates(profile: VolunteerProfile, candidates: seq<Opportunity>, applications: seq<Application>, today: Date): (scored: seq<Scored>)
    ensures |scored| <= |candidates|
  {
    Kept(Outcomes(profile, candidates, applications, today))
  }

  /** The volunteer's ledger admits the candidate. */
  predicate Admitted(profile: VolunteerProfile, applications: seq<Application>, o: Opportunity) {
    CheckHoursLimit(profile.user, Some(profile), applications, o).canApply
  }

  /** One candidate's outcome: refused, or scored with the full workload bonus. */
  lemma ScoreCandidateExact(profile: VolunteerProfile, o: Opportunity, applications: seq<Application>, today: Date)
    ensures ScoreCandidate(profile, o, applications, today)
      == if Admitted(profile, applications, o)
         then Some(Scored(o, CompatibilityScore(profile, o, today) + FullFitBonus))
         else None
  {
    var check := CheckHoursLimit(profile.user, Some(profile), applications, o);
    AdmissionFitsCapacity(profile.user, profile, applications, o);
    OutcomeOfFit(check, profile, o, CompatibilityScore(profile, o, today));
  }

  /** When admission means fitting, an admitted candidate gets the full bonus. */
  lemma OutcomeOfFit(check: HoursCheck, profile: VolunteerProfile, o: Opportunity, compatibility: real)
    requires check.canApply ==> check.currentHours + o.minHoursPerWeek <= profile.maxHoursPerWeek
    ensures Outcome(check, profile, o, compatibility)
      == if check.canApply then Some(Scored(o, compatibility + FullFitBonus)) else None
  {
  }

  /** Every scored entry is an admitted candidate with the weighted sub-scores plus the full workload bonus. */
  lemma ScoredCandidatesSound(profile: VolunteerProfile, candidates: seq<Opportunity>, applications: seq<Application>, today: Date, x: Scored)
    requires x in ScoredCandidates(profile, candidates, applications, today)
    ensures x.opportunity in candidates
    ensures Admitted(profile, applications, x.opportunity)
    ensures x.score == CompatibilityScore(profile, x.opportunity, today) + FullFitBonus
  {
    var outcomes := Outcomes(profile, candidates, applications, today);
    KeptMembership(outcomes, x);
    var i :| 0 <= i < |outcomes| && outcomes[i] == Some(x);
    ScoreCandidateExact(profile, candidates[i], applications, today);
  }

  /** Every admitted candidate is scored, with the full workload bonus. */
  lemma ScoredCandidatesComplete(profile: VolunteerProfile, candidates: seq<Opportunity>, applications: seq<Application>, today: Date, o: Opportunity)
    requires o in candidates && Admitted(profile, applications, o)
    ensures Scored(o, CompatibilityScore(profile, o, today) + FullFitBonus)
              in ScoredCandidates(profile, candidates, applications, today)
  {
    var outcomes := Outcomes(profile, candidates, applications, today);
    var entry := Scored(o, CompatibilityScore(profile, o, today) + FullFitBonus);
    var i :| 0 <= i < |candidates| && candidates[i] == o;
    ScoreCandidateExact(profile, o, applications, today);
    assert outcomes[i] == Some(entry);
    KeptMembership(outcomes, entry);
  }

  /** Scoring one more candidate appends its entry when there is one. */
  lemma ScoredCandidatesStep(profile: VolunteerProfile, candidates: seq<Opportunity>, applications: seq<Application>, today: Date, i: nat)
    requires i < |candidates|
    ensures ScoredCandidates(profile, candidates[..i + 1], applications, today)
      == ScoredCandidates(profile, candidates[..i], applications, today)
         + match ScoreCandidate(profile, candidates[i], applications, today)
           case None => []
           case Some(x) => [x]
  {
    var longer := Outcomes(profile, candidates[..i + 1], applications, today);
    assert longer[..i] == Outcomes(profile, candidates[..i], applications, today);
  }

  /**
   * `get_recommended_opportunities`: the admitted open opportunities, sorted
   * by descending score (ties in candidate order), cut to `limit`.
   */
  function Recommend(profile: VolunteerProfile, opportunities: seq<Opportunity>, applications: seq<Application>, today: Date, limit: int): (r: seq<Scored>)
    ensures |r| <= |opportunities|
    ensures limit >= 0 ==> |r| <= limit
  {
    Truncate(SortByScore(ScoredCandidates(profile, OpenOpportunities(opportunities), applications, today)), limit)
  }

  /**
   * The body of the scoring loop for one candidate: the four sub-scores
   * weighted and summed, then the ledger's verdict; `None` where the loop
   * skips the candidate.
   */
  method ScoreOpportunity(profile: VolunteerProfile, o: Opportunity, applications: seq<Application>, today: Date)
    returns (outcome: Option<Scored>)
    ensures outcome == ScoreCandidate(profile, o, applications, today)
    ensures outcome.Some? ==> outcome.value == Scored(o, CompatibilityScore(profile, o, today) + FullFitBonus)
  {
    var score := 0.0;
    var skillsMatch := CalculateSkillsOverlap(profile.skills, o.requiredSkills);
    score := score + skillsMatch * 40.0;
    var interestsMatch := CheckInterestsMatch(profile.interests, CategoryCode(o.category));
    score := score + interestsMatch * 20.0;
    var availMatch := AvailabilityOverlap(profile.availability, o, today);
    score := score + availMatch * 20.0;
    var locationMatch := LocationPreference(profile, o);
    score := score + locationMatch * 10.0;
    assert score == CompatibilityScore(profile, o, today);
    var check := CheckHoursLimit(profile.user, Some(profile), applications, o);
    ScoreCandidateExact(profile, o, applications, today);
    if !check.canApply {
      return None;
    }
    var workloadScore := if check.currentHours + o.minHoursPerWeek <= profile.maxHoursPerWeek then FullFitBonus else PartialFitBonus;
    score := score + workloadScore;
    outcome := Some(Scored(o, score));
  }

  /**
   * `get_recommended_opportunities`: scores every open opportunity the ledger
   * admits, sorts by descending score (stably) and keeps the first `limit`.
   */
  method GetRecommendedOpportunities(
    profile: VolunteerProfile, opportunities: seq<Opportunity>, applications: seq<Application>,
    today: Date, limit: int) returns (recommendations: seq<Scored>)
    ensures recommendations == Recommend(profile, opportunities, applications, today, limit)
  {
    var open := OpenOpportunities(opportunities);
    var scoredOpportunities: seq<Scored> := [];
    var i := 0;
    while i < |open|
      invariant 0 <= i <= |open|
      invariant scoredOpportunities == ScoredCandidates(profile, open[..i], applications, today)
    {
      var outcome := ScoreOpportunity(profile, open[i], applications, today);
      ScoredCandidatesStep(profile, open, applications, today, i);
      if outcome.Some? {
        scoredOpportunities := scoredOpportunities + [outcome.value];
      }
      i := i + 1;
    }
    assert open[..i] == open;
    scoredOpportunities := SortByScore(scoredOpportunities);
    recommendations := Truncate(scoredOpportunities, limit);
  }

  /**
   * Every recommendation is an open opportunity the ledger admits, scored
   * 40 skills + 20 interests + 20 availability + 10 location + 10, which lies
   * in [15, 100]: the 5.0 bonus never appears.
   */
  lemma RecommendationsSound(profile: VolunteerProfile, opportunities: seq<Opportunity>, applications: seq<Application>, today: Date, limit: int)
    ensures forall x :: x in Recommend(profile, opportunities, applications, today, limit) ==>
      && x.opportunity in opportunities
      && x.opportunity.status == Open
      && Admitted(profile, applications, x.opportunity)
      && x.score == CompatibilityScore(profile, x.opportunity, today) + FullFitBonus
      && 15.0 <= x.score <= 100.0
  {
    var open := OpenOpportunities(opportunities);
    var scored := ScoredCandidates(profile, open, applications, today);
    SortByScoreCorrect(scored);
    forall x | x in Recommend(profile, opportunities, applications, today, limit)
      ensures x.opportunity in opportunities && x.opportunity.status == Open
      ensures Admitted(profile, applications, x.opportunity)
      ensures x.score == CompatibilityScore(profile, x.opportunity, today) + FullFitBonus
      ensures 15.0 <= x.score <= 100.0
    {
      assert x in SortByScore(scored);
      assert x in multiset(scored);
      ScoredCandidatesSound(profile, open, applications, today, x);
    }
  }

  /** Entries of a prefix, taken per score, are a prefix of the entries of the whole. */
  lemma WithScorePrefix(s: seq<Scored>, n: nat, k: real)
    requires n <= |s|
    ensures IsPrefixOf(WithScore(s[..n], k), WithScore(s, k))
  {
    assert s == s[..n] + s[n..];
    WithScoreConcat(s[..n], s[n..], k);
  }

  predicate IsPrefixOf(p: seq<Scored>, s: seq<Scored>) {
    |p| <= |s| && p == s[..|p|]
  }

  /**
   * For a non-negative limit the recommendations are the `limit` admitted
   * candidates (or all of them, when fewer) ordered by non-increasing score,
   * and for each score the recommended entries are the first ones of that
   * score in candidate order.
   */
  lemma RecommendationsRanked(profile: VolunteerProfile, opportunities: seq<Opportunity>, applications: seq<Application>, today: Date, limit: int)
    ensures var r := Recommend(profile, opportunities, applications, today, limit);
      var scored := ScoredCandidates(profile, OpenOpportunities(opportunities), applications, today);
      && (limit >= 0 ==> |r| == if limit < |scored| then limit else |scored|)
      && SortedByScore(r)
      && forall k :: IsPrefixOf(WithScore(r, k),
                                WithScore(ScoredCandidates(profile, OpenOpportunities(opportunities), applications, today), k))
  {
    var scored := ScoredCandidates(profile, OpenOpportunities(opportunities), applications, today);
    var sorted := SortByScore(scored);
    var r := Recommend(profile, opportunities, applications, today, limit);
    SortByScoreCorrect(scored);
    assert r == sorted[..|r|];
    forall k ensures IsPrefixOf(WithScore(r, k), WithScore(scored, k)) {
      WithScorePrefix(sorted, |r|, k);
    }
  }

  /**
   * The cut keeps the best candidates: no admitted candidate left out of the
   * recommendations scores above one that is recommended.
   */
  lemma RecommendationsAreBest(profile: VolunteerProfile, opportunities: seq<Opportunity>, applications: seq<Application>, today: Date, limit: int)
    ensures var r := Recommend(profile, opportunities, applications, today, limit);
      var scored := ScoredCandidates(profile, OpenOpportunities(opportunities), applications, today);
      forall x, y :: x in r && y in multiset(scored) - multiset(r) ==> y.score <= x.score
  {
    var scored := ScoredCandidates(profile, OpenOpportunities(opportunities), applications, today);
    var sorted := SortByScore(scored);
    var r := Recommend(profile, opportunities, applications, today, limit);
    SortByScoreCorrect(scored);
    assert r == sorted[..|r|];
    SortedPrefixIsBest(sorted, |r|);
  }

  /** With a limit of at least the number of opportunities, every admitted open opportunity is recommended. */
  lemma RecommendationsComplete(profile: VolunteerProfile, opportunities: seq<Opportunity>, applications: seq<Application>, today: Date, limit: int, o: Opportunity)
    requires limit >= |opportunities|
    requires o in opportunities && o.status == Open && Admitted(profile, applications, o)
    ensures Scored(o, CompatibilityScore(profile, o, today) + FullFitBonus)
              in Recommend(profile, opportunities, applications, today, limit)
  {
    var open := OpenOpportunities(opportunities);
    var scored := ScoredCandidates(profile, open, applications, today);
    var x := Scored(o, CompatibilityScore(profile, o, today) + FullFitBonus);
    ScoredCandidatesComplete(profile, open, applications, today, o);
    SortByScoreCorrect(scored);
    assert x in multiset(SortByScore(scored));
  }

  /** A sole open opportunity that the ledger admits is the first recommendation for any positive limit. */
  lemma SoleOpenOpportunityRecommendedFirst(profile: VolunteerProfile, opportunities: seq<Opportunity>, applications: seq<Application>, today: Date, limit: int, o: Opportunity)
    requires limit >= 1
    requires o in opportunities && o.status == Open && Admitted(profile, applications, o)
    requires forall p :: p in opportunities && p.status == Open ==> p == o
    ensures var r := Recommend(profile, opportunities, applications, today, limit);
      |r| >= 1 && r[0].opportunity == o
  {
    var open := OpenOpportunities(opportunities);
    var scored := ScoredCandidates(profile, open, applications, today);
    ScoredCandidatesComplete(profile, open, applications, today, o);
    SortByScoreCorrect(scored);
    assert |SortByScore(scored)| >= 1;
    var r := Recommend(profile, opportunities, applications, today, limit);
    assert r[0] in r;
    RecommendationsSound(profile, opportunities, applications, today, limit);
  }
}
