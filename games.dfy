/**
 * The game layer: the achievement tracker and its unlock rule, answer checking, the
 * probability-threshold challenge and the orbital-matching quiz. Random draws are inputs:
 * a sequence of raw draws that `randint` and `shuffle` consume in order.
 */
module Games {
  import opened Wrappers
  import opened Numerics
  import opened Strings
  import Orbitals

  // ---------------------------------------------------------------------------------------
  // Achievements
  // ---------------------------------------------------------------------------------------

  /** One tracker entry. `threshold` and `progress` are the optional fields of the entry's
      dictionary; entries that count towards a threshold carry both. */
  datatype Achievement = Achievement(
    name: string,
    description: string,
    icon: string,
    threshold: Option<int>,
    progress: Option<int>,
    unlocked: bool)

  /** The shape every tracker entry has: a threshold comes with a progress counter. */
  predicate Consistent(a: Achievement) {
    a.threshold.Some? ==> a.progress.Some?
  }

  ghost predicate AllConsistent(m: map<string, Achievement>) {
    forall k :: k in m ==> Consistent(m[k])
  }

  /** The thresholds the configuration supplies for three of the achievements. */
  const ACHIEVEMENT_THRESHOLDS: map<string, int> :=
    map["orbital_master" := 50, "superposition_guru" := 20, "speed_runner" := 10]

  function Locked(name: string, description: string, icon: string): Achievement {
    Achievement(name, description, icon, None, None, false)
  }

  function Counter(name: string, description: string, icon: string, threshold: int): Achievement {
    Achievement(name, description, icon, Some(threshold), Some(0), false)
  }

  /** The achievement definitions `create_achievement_tracker` returns, in order. */
  const INITIAL_ENTRIES: seq<(string, Achievement)> := [
    ("first_orbital", Locked("First Steps", "View your first orbital", "🌟")),
    ("orbital_explorer", Counter("Orbital Explorer", "View 10 different orbitals", "🔭", 10)),
    ("orbital_master", Counter("Orbital Master", "View all orbitals up to n=4", "👑",
                               ACHIEVEMENT_THRESHOLDS["orbital_master"])),
    ("superposition_novice", Locked("Superposition Novice", "Create your first superposition state", "🌊")),
    ("superposition_guru", Counter("Superposition Guru", "Create 20 superposition states", "🧙",
                                   ACHIEVEMENT_THRESHOLDS["superposition_guru"])),
    ("measurement_pro", Counter("Measurement Pro", "Perform 50 measurements", "🔬", 50)),
    ("theme_collector", Counter("Theme Collector", "Try all visual themes", "🎨", 5)),
    ("speed_runner", Counter("Speed Runner", "Complete speed run in under 30 seconds", "⚡",
                             ACHIEVEMENT_THRESHOLDS["speed_runner"])),
    ("challenge_master", Counter("Challenge Master", "Complete 10 challenges successfully", "🏆", 10)),
    ("vectrex_veteran", Counter("Vectrex Veteran", "Use Vectrex theme for 10 orbitals", "📺", 10))]

  /** The dictionary a list of key/entry pairs spells out (a later pair wins a repeated key). */
  function MapOf(entries: seq<(string, Achievement)>): (m: map<string, Achievement>)
    ensures forall i :: 0 <= i < |entries| ==> entries[i].0 in m
    ensures forall k :: k in m ==> exists i :: 0 <= i < |entries| && entries[i] == (k, m[k])
    decreases |entries|
  {
    if entries == [] then map[]
    else
      var init := entries[..|entries| - 1];
      var last := entries[|entries| - 1];
      var m := MapOf(init);
      assert forall i :: 0 <= i < |init| ==> init[i] == entries[i];
      m[last.0 := last.1]
  }

  function InitialAchievements(): map<string, Achievement> {
    MapOf(INITIAL_ENTRIES)
  }

  /** A new tracker has every achievement locked and every counter at zero; exactly the
      thresholded entries carry a counter. */
  lemma InitialAllLocked()
    ensures AllConsistent(InitialAchievements())
    ensures forall k :: k in InitialAchievements() ==>
      !InitialAchievements()[k].unlocked
      && (InitialAchievements()[k].progress.Some? ==> InitialAchievements()[k].progress.value == 0)
      && (InitialAchievements()[k].threshold.Some? <==> InitialAchievements()[k].progress.Some?)
  {
    var e := INITIAL_ENTRIES;
    assert forall i :: 0 <= i < |e| ==>
      !e[i].1.unlocked && (e[i].1.progress == None || e[i].1.progress == Some(0))
      && (e[i].1.threshold.Some? <==> e[i].1.progress.Some?);
  }

  /** What one call does to its entry: nothing once unlocked; otherwise the optional increment,
      then the unlock test. The flag is the call's return value. */
  function Advance(a: Achievement, increment: bool): (r: (Achievement, bool))
    requires Consistent(a)
    ensures Consistent(r.0)
    ensures r.0.name == a.name && r.0.description == a.description && r.0.icon == a.icon
    ensures r.0.threshold == a.threshold
    ensures r.1 <==> !a.unlocked && r.0.unlocked
    ensures a.unlocked ==> r.0 == a
    ensures !a.unlocked ==>
      r.0.progress == if increment && a.progress.Some? then Some(a.progress.value + 1) else a.progress
    ensures !a.unlocked && a.threshold.None? ==> r.1
    ensures !a.unlocked && a.threshold.Some? ==> (r.1 <==> r.0.progress.value >= a.threshold.value)
  {
    if a.unlocked then (a, false)
    else
      var counted := if increment && a.progress.Some? then a.(progress := Some(a.progress.value + 1)) else a;
      if counted.threshold.Some? then
        if counted.progress.value >= counted.threshold.value then (counted.(unlocked := true), true)
        else (counted, false)
      else (counted.(unlocked := true), true)
  }

  /** One call on the whole tracker: an unknown key changes nothing and returns False. */
  function Apply(m: map<string, Achievement>, key: string, increment: bool)
    : (r: (map<string, Achievement>, bool))
    requires AllConsistent(m)
    ensures AllConsistent(r.0)
    ensures r.0.Keys == m.Keys
    ensures key !in m ==> r == (m, false)
    ensures forall k :: k in m && k != key ==> r.0[k] == m[k]
    ensures key in m ==> (r.0[key], r.1) == Advance(m[key], increment)
  {
    if key !in m then (m, false)
    else
      var (a, unlocked) := Advance(m[key], increment);
      (m[key := a], unlocked)
  }

  /** How many calls of a sequence return True for `key`. */
  function UnlocksOf(m: map<string, Achievement>, calls: seq<(string, bool)>, key: string): nat
    requires AllConsistent(m)
    decreases |calls|
  {
    if calls == [] then 0
    else
      var (m', hit) := Apply(m, calls[0].0, calls[0].1);
      (if hit && calls[0].0 == key then 1 else 0) + UnlocksOf(m', calls[1..], key)
  }

  /** A key returns True at most once over any sequence of calls, and never once it is
      unlocked. */
  lemma {:induction false} UnlockAtMostOnce(m: map<string, Achievement>, calls: seq<(string, bool)>,
                                            key: string)
    requires AllConsistent(m)
    ensures UnlocksOf(m, calls, key) <= 1
    ensures key in m && m[key].unlocked ==> UnlocksOf(m, calls, key) == 0
    decreases |calls|
  {
    if calls != [] {
      var (m', hit) := Apply(m, calls[0].0, calls[0].1);
      UnlockAtMostOnce(m', calls[1..], key);
      if hit && calls[0].0 == key {
        assert m'[key].unlocked;
      }
    }
  }

  /** The tracker dictionary, updated in place by the unlock check. */
  class AchievementTracker {
    var achievements: map<string, Achievement>

    ghost predicate Valid()
      reads this
    {
      AllConsistent(achievements)
    }

    /** `create_achievement_tracker`. */
    constructor()
      ensures Valid()
      ensures achievements == InitialAchievements()
    {
      achievements := InitialAchievements();
      InitialAllLocked();
    }

    /** `check_achievement_unlock`: returns True iff this call unlocked the entry. */
    method CheckAchievementUnlock(key: string, increment: bool) returns (newlyUnlocked: bool)
      requires Valid()
      modifies this
      ensures Valid()
      ensures (achievements, newlyUnlocked) == Apply(old(achievements), key, increment)
    {
      if key !in achievements {
        return false;
      }
      var achievement := achievements[key];
      if achievement.unlocked {
        assert achievements[key := achievement] == achievements;
        return false;
      }
      if increment && achievement.progress.Some? {
        achievement := achievement.(progress := Some(achievement.progress.value + 1));
        achievements := achievements[key := achievement];
      }
      if achievement.threshold.Some? {
        if achievement.progress.value >= achievement.threshold.value {
          achievements := achievements[key := achievement.(unlocked := true)];
          assert achievements == old(achievements)[key := achievement.(unlocked := true)];
          return true;
        }
      } else {
        achievements := achievements[key := achievement.(unlocked := true)];
        assert achievements == old(achievements)[key := achievement.(unlocked := true)];
        return true;
      }
      assert achievements == old(achievements)[key := achievement];
      return false;
    }
  }

  // ---------------------------------------------------------------------------------------
  // Orbital matching
  // ---------------------------------------------------------------------------------------

  type Triple = (int, int, int)

  /** `str((n, l, m))`. */
  function TupleString(t: Triple): string {
    "(" + (IntToString(t.0) + AfterFirst(t))
  }

  /** The text after the first number: `", l, m)"`. */
  function AfterFirst(t: Triple): string {
    ", " + (IntToString(t.1) + AfterSecond(t))
  }

  /** The text after the second number: `", m)"`. */
  function AfterSecond(t: Triple): string {
    ", " + (IntToString(t.2) + ")")
  }

  lemma DropPrefix(p: string, x: string, y: string)
    requires p + x == p + y
    ensures x == y
  {
    assert x == (p + x)[|p|..];
    assert y == (p + y)[|p|..];
  }

  lemma AfterSecondInjective(a: Triple, b: Triple)
    requires AfterSecond(a) == AfterSecond(b)
    ensures a.2 == b.2
  {
    DropPrefix(", ", IntToString(a.2) + ")", IntToString(b.2) + ")");
    SplitAfterInt(a.2, ")", b.2, ")");
  }

  lemma AfterFirstInjective(a: Triple, b: Triple)
    requires AfterFirst(a) == AfterFirst(b)
    ensures a.1 == b.1 && a.2 == b.2
  {
    DropPrefix(", ", IntToString(a.1) + AfterSecond(a), IntToString(b.1) + AfterSecond(b));
    SplitAfterInt(a.1, AfterSecond(a), b.1, AfterSecond(b));
    AfterSecondInjective(a, b);
  }

  /** Different triples print differently, so the answer string identifies the triple. */
  lemma TupleStringInjective(a: Triple, b: Triple)
    requires TupleString(a) == TupleString(b)
    ensures a == b
  {
    DropPrefix("(", IntToString(a.0) + AfterFirst(a), IntToString(b.0) + AfterFirst(b));
    SplitAfterInt(a.0, AfterFirst(a), b.0, AfterFirst(b));
    AfterFirstInjective(a, b);
  }

  /** The quantum-number ranges of a difficulty level. */
  datatype Ranges = Ranges(nMin: int, nMax: int, lMax: nat)

  const DIFFICULTY_RANGES: map<string, Ranges> := map[
    "easy" := Ranges(1, 3, 1),
    "medium" := Ranges(1, 4, 2),
    "hard" := Ranges(1, 5, 3),
    "expert" := Ranges(1, 7, 4)]

  /** `difficulty_ranges.get(difficulty, difficulty_ranges['medium'])`. */
  function RangesFor(difficulty: string): (r: Ranges)
    ensures difficulty in DIFFICULTY_RANGES ==> r == DIFFICULTY_RANGES[difficulty]
    ensures difficulty !in DIFFICULTY_RANGES ==> r == Ranges(1, 4, 2)
    ensures 1 <= r.nMin <= r.nMax
  {
    if difficulty in DIFFICULTY_RANGES then DIFFICULTY_RANGES[difficulty] else DIFFICULTY_RANGES["medium"]
  }

  /** A triple the quiz can draw at a difficulty. */
  predicate InRange(t: Triple, r: Ranges) {
    r.nMin <= t.0 <= r.nMax && 0 <= t.1 <= Min(t.0 - 1, r.lMax) && -t.1 <= t.2 <= t.1
  }

  function Min(a: int, b: int): int {
    if a <= b then a else b
  }

  /** `random.randint(lo, hi)` on a raw draw: every value in [lo, hi] is reachable. */
  function RandInt(lo: int, hi: int, draw: nat): (v: int)
    requires lo <= hi
    ensures lo <= v <= hi
  {
    lo + draw % (hi - lo + 1)
  }

  /** The three draws of one triple: n, then l bounded by n, then m bounded by l. */
  function DrawTriple(r: Ranges, d0: nat, d1: nat, d2: nat): (t: Triple)
    requires 1 <= r.nMin <= r.nMax
    ensures InRange(t, r)
  {
    var n := RandInt(r.nMin, r.nMax, d0);
    var l := RandInt(0, Min(n - 1, r.lMax), d1);
    (n, l, RandInt(-l, l, d2))
  }

  /** One answer button of the quiz. */
  datatype OptionEntry = OptionEntry(caption: string, value: string)

  /** The challenge record `orbital_matching_game` returns. */
  datatype MatchingChallenge = MatchingChallenge(
    difficulty: string,
    target: Triple,
    targetName: string,
    options: seq<OptionEntry>,
    correctAnswer: string)

  /** The label of an answer button: the orbital's name and its numbers. */
  function OptionLabel(t: Triple): string {
    Orbitals.OrbitalName(t.0, t.1, t.2) + " (n=" + IntToString(t.0) + ", l=" + IntToString(t.1)
      + ", m=" + IntToString(t.2) + ")"
  }

  predicate Distinct<T(==)>(s: seq<T>) {
    forall i, j :: 0 <= i < j < |s| ==> s[i] != s[j]
  }

  /** `random.shuffle`: for i from the end down to 1, swap item i with an item at or below it. */
  method Shuffle(items: seq<Triple>, draws: seq<nat>) returns (shuffled: seq<Triple>)
    requires |draws| >= |items| - 1
    ensures multiset(shuffled) == multiset(items)
    ensures |shuffled| == |items|
  {
    shuffled := items;
    var i := |items| - 1;
    var used := 0;
    while i >= 1
      invariant 0 <= i + 1 <= |items| || (i == -1 && items == [])
      invariant used == |items| - 1 - i
      invariant |shuffled| == |items|
      invariant multiset(shuffled) == multiset(items)
    {
      var j := draws[used] % (i + 1);
      shuffled := Swap(shuffled, i, j);
      i := i - 1;
      used := used + 1;
    }
  }

  function Swap(s: seq<Triple>, i: nat, j: nat): (r: seq<Triple>)
    requires i < |s| && j < |s|
    ensures |r| == |s| && multiset(r) == multiset(s)
  {
    s[i := s[j]][j := s[i]]
  }

  /** A permutation of distinct items is distinct. */
  lemma PermutationKeepsDistinct(a: seq<Triple>, b: seq<Triple>)
    requires multiset(a) == multiset(b) && Distinct(a)
    ensures Distinct(b)
  {
    forall i, j | 0 <= i < j < |b|
      ensures b[i] != b[j]
    {
      if b[i] == b[j] {
        assert multiset(b)[b[i]] >= 2 by {
          assert b == b[..i] + [b[i]] + b[i + 1..j] + [b[j]] + b[j + 1..];
        }
        DistinctCountsOne(a, b[i]);
      }
    }
  }

  lemma {:induction false} DistinctCountsOne(a: seq<Triple>, x: Triple)
    requires Distinct(a)
    ensures multiset(a)[x] <= 1
    decreases |a|
  {
    if a != [] {
      DistinctCountsOne(a[1..], x);
      assert a == [a[0]] + a[1..];
      if a[0] == x {
        assert x !in a[1..];
      }
    }
  }

  lemma DistinctAppend(s: seq<Triple>, x: Triple)
    requires Distinct(s) && x !in s
    ensures Distinct(s + [x])
  {
  }

  /** What the `while len(wrong_options) < 3` loop ends with when it starts at draw `used`
      holding `kept`: the three wrong options and the next unused draw, or `None` once fewer than
      three draws are left. */
  function WrongOptionsFrom(ranges: Ranges, target: Triple, draws: seq<nat>, used: nat, kept: seq<Triple>)
    : (res: (Option<seq<Triple>>, nat))
    requires 1 <= ranges.nMin <= ranges.nMax && used <= |draws|
    ensures used <= res.1 <= |draws|
    ensures res.0.None? ==> res.1 + 3 > |draws|
    decreases |draws| - used
  {
    if |kept| >= 3 then (Some(kept), used)
    else if used + 3 > |draws| then (None, used)
    else
      var option := DrawTriple(ranges, draws[used], draws[used + 1], draws[used + 2]);
      if option != target && option !in kept then
        WrongOptionsFrom(ranges, target, draws, used + 3, kept + [option])
      else
        WrongOptionsFrom(ranges, target, draws, used + 3, kept)
  }

  /** The `while len(wrong_options) < 3` loop: draw triples from position `start` on, keeping
      each that differs from the target and from those kept so far. */
  method DrawWrongOptions(ranges: Ranges, target: Triple, draws: seq<nat>, start: nat)
    returns (wrong: Option<seq<Triple>>, used: nat)
    requires 1 <= ranges.nMin <= ranges.nMax && start <= |draws|
    ensures (wrong, used) == WrongOptionsFrom(ranges, target, draws, start, [])
    ensures start <= used <= |draws|
    ensures wrong.None? ==> used + 3 > |draws|
    ensures wrong.Some? ==>
      |wrong.value| == 3 && Distinct([target] + wrong.value) && forall k :: 0 <= k < 3 ==> InRange(wrong.value[k], ranges)
  {
    used := start;
    var kept: seq<Triple> := [];
    assert Distinct([target] + kept);
    while |kept| < 3
      invariant start <= used <= |draws|
      invariant |kept| <= 3
      invariant Distinct([target] + kept)
      invariant forall k :: 0 <= k < |kept| ==> InRange(kept[k], ranges)
      invariant WrongOptionsFrom(ranges, target, draws, used, kept)
             == WrongOptionsFrom(ranges, target, draws, start, [])
      decreases |draws| - used
    {
      if used + 3 > |draws| {
        return None, used;
      }
      var option := DrawTriple(ranges, draws[used], draws[used + 1], draws[used + 2]);
      used := used + 3;
      if option != target && option !in kept {
        DistinctAppend([target] + kept, option);
        assert [target] + kept + [option] == [target] + (kept + [option]);
        kept := kept + [option];
      }
    }
    wrong := Some(kept);
  }

  /** The answer buttons, one per triple. */
  function OptionsDisplay(opts: seq<Triple>): (d: seq<OptionEntry>)
    ensures |d| == |opts|
    ensures forall k :: 0 <= k < |opts| ==> d[k] == OptionEntry(OptionLabel(opts[k]), TupleString(opts[k]))
  {
    seq(|opts|, k requires 0 <= k < |opts| => OptionEntry(OptionLabel(opts[k]), TupleString(opts[k])))
  }

  /** Shuffling keeps the options distinct, in range and holding the target. */
  lemma ShuffledOptions(target: Triple, wrong: seq<Triple>, opts: seq<Triple>, ranges: Ranges)
    requires |wrong| == 3 && Distinct([target] + wrong)
    requires forall k :: 0 <= k < 3 ==> InRange(wrong[k], ranges)
    requires InRange(target, ranges)
    requires multiset(opts) == multiset([target] + wrong)
    ensures |opts| == 4 && Distinct(opts) && target in opts
    ensures forall k :: 0 <= k < 4 ==> InRange(opts[k], ranges)
  {
    var all := [target] + wrong;
    assert |opts| == |multiset(opts)| == |all|;
    PermutationKeepsDistinct(all, opts);
    assert target in multiset(opts);
    forall k | 0 <= k < 4
      ensures InRange(opts[k], ranges)
    {
      assert opts[k] in multiset(all);
    }
  }

  /** `orbital_matching_game`: a target triple, three distinct wrong triples drawn until found,
      shuffled together. `None` exactly when the supplied draws run out first (the program keeps
      drawing). */
  method OrbitalMatchingGame(difficulty: string, draws: seq<nat>) returns (res: Option<MatchingChallenge>)
    ensures res.None? <==>
      |draws| < 3
      || var (wrong, used) := WrongOptionsFrom(RangesFor(difficulty),
                                               DrawTriple(RangesFor(difficulty), draws[0], draws[1], draws[2]),
                                               draws, 3, []);
         wrong.None? || |draws| - used < 3
    ensures res.Some? ==> res.value.difficulty == difficulty
    ensures res.Some? ==> InRange(res.value.target, RangesFor(difficulty))
    ensures res.Some? ==> res.value.correctAnswer == TupleString(res.value.target)
    ensures res.Some? ==>
      res.value.targetName == Orbitals.OrbitalName(res.value.target.0, res.value.target.1, res.value.target.2)
    ensures res.Some? ==>
      exists opts: seq<Triple> :: |opts| == 4 && Distinct(opts) && res.value.target in opts
        && (forall k :: 0 <= k < 4 ==> InRange(opts[k], RangesFor(difficulty)))
        && res.value.options == OptionsDisplay(opts)
  {
    var ranges := RangesFor(difficulty);
    if |draws| < 3 {
      return None;
    }
    var target := DrawTriple(ranges, draws[0], draws[1], draws[2]);
    var wrong, used := DrawWrongOptions(ranges, target, draws, 3);
    if wrong.None? || |draws| - used < 3 {
      return None;
    }
    var opts := Shuffle([target] + wrong.value, draws[used..]);
    ShuffledOptions(target, wrong.value, opts, ranges);
    res := Some(MatchingChallenge(difficulty, target, Orbitals.OrbitalName(target.0, target.1, target.2),
                                  OptionsDisplay(opts), TupleString(target)));
  }

  // ---------------------------------------------------------------------------------------
  // Probability challenge
  // ---------------------------------------------------------------------------------------

  const PROBABILITY_THRESHOLDS: map<string, real> :=
    map["easy" := 0.001, "medium" := 0.005, "hard" := 0.01, "expert" := 0.05]

  /** `thresholds.get(difficulty, 0.005)`. */
  function ThresholdFor(difficulty: string): (t: real)
    ensures difficulty in PROBABILITY_THRESHOLDS ==> t == PROBABILITY_THRESHOLDS[difficulty]
    ensures difficulty !in PROBABILITY_THRESHOLDS ==> t == 0.005
    ensures 0.0 < t <= 1.0
  {
    if difficulty in PROBABILITY_THRESHOLDS then PROBABILITY_THRESHOLDS[difficulty] else 0.005
  }

  /** `np.sum(prob >= target)`. */
  function CountAtLeast(s: seq<real>, target: real): (c: nat)
    ensures c <= |s|
    ensures c == 0 <==> forall i :: 0 <= i < |s| ==> s[i] < target
    decreases |s|
  {
    if s == [] then 0
    else
      var rest := CountAtLeast(s[1..], target);
      assert forall i :: 1 <= i < |s| ==> s[i] == s[1..][i - 1];
      (if s[0] >= target then 1 else 0) + rest
  }

  datatype GameError = EmptyGrid

  /** The record `probability_challenge` returns. */
  datatype ProbabilityChallengeData = ProbabilityChallengeData(
    difficulty: string,
    targetProbability: real,
    thresholdPercent: real,
    numValidPoints: nat,
    maxProbability: real)

  /** `probability_challenge`: the target is the difficulty's fraction of the peak density;
      `np.max` of an empty grid raises. */
  function ProbabilityChallenge(densities: seq<real>, difficulty: string)
    : (res: Result<ProbabilityChallengeData, GameError>)
    ensures res.Err? <==> densities == []
    ensures res.Ok? ==> res.value.difficulty == difficulty
    ensures res.Ok? ==>
      res.value.maxProbability in densities && forall i :: 0 <= i < |densities| ==> densities[i] <= res.value.maxProbability
    ensures res.Ok? ==> res.value.targetProbability == Times(ThresholdFor(difficulty), res.value.maxProbability)
    ensures res.Ok? ==> res.value.thresholdPercent == Times(ThresholdFor(difficulty), 100.0)
    ensures res.Ok? ==> res.value.numValidPoints == CountAtLeast(densities, res.value.targetProbability)
    ensures res.Ok? && res.value.maxProbability >= 0.0 ==> res.value.numValidPoints >= 1
  {
    if densities == [] then Err(EmptyGrid)
    else
      var threshold := ThresholdFor(difficulty);
      var peak := Max(densities);
      var target := Times(threshold, peak);
      var count := CountAtLeast(densities, target);
      PeakMeetsTarget(threshold, peak);
      Ok(ProbabilityChallengeData(difficulty, target, Times(threshold, 100.0), count, peak))
  }

  /** A fraction at most 1 of a non-negative peak does not exceed the peak. */
  lemma PeakMeetsTarget(threshold: real, peak: real)
    requires 0.0 < threshold <= 1.0
    ensures peak >= 0.0 ==> peak >= Times(threshold, peak)
  {
    if peak >= 0.0 {
      TimesMonotone(peak, threshold, 1.0);
      TimesOne(peak);
    }
  }

  // ---------------------------------------------------------------------------------------
  // Answer checking
  // ---------------------------------------------------------------------------------------

  /** A challenge as `validate_challenge_answer` sees it, by its `type` field. */
  datatype Challenge =
    | Matching(matching: MatchingChallenge)
    | Probability(probability: ProbabilityChallengeData)
    | Unrecognised(kind: string)

  /** The player's answer: a dropdown value, or a measurement dictionary with its optional
      `probability` entry and its `str()` rendering. */
  datatype Answer = Text(s: string) | Reading(probability: Option<real>, rendered: string)

  function AnswerText(a: Answer): string {
    match a
    case Text(s) => s
    case Reading(_, rendered) => rendered
  }

  datatype Feedback = WellDone | TryAgain | FoundIt(measured: real) | TooLow(measured: real, target: real)
                    | UnknownType

  /** The result record; the fields present depend on the challenge type. */
  datatype Verdict = Verdict(
    correct: bool,
    feedback: Feedback,
    points: int,
    correctAnswer: Option<string>,
    measured: Option<real>,
    target: Option<real>)

  /** A text answer has no `.get`, which a probability challenge calls. */
  datatype AnswerError = NoGetOnText

  /** `validate_challenge_answer`. */
  function ValidateChallengeAnswer(challenge: Challenge, answer: Answer): (res: Result<Verdict, AnswerError>)
    ensures challenge.Matching? ==>
      res.Ok? && (res.value.correct <==> AnswerText(answer) == challenge.matching.correctAnswer)
      && res.value.points == (if res.value.correct then 10 else 0)
      && res.value.correctAnswer == Some(challenge.matching.correctAnswer)
    ensures challenge.Probability? ==> (res.Err? <==> answer.Text?)
    ensures challenge.Probability? && answer.Reading? ==>
      res.Ok? && res.value.measured == Some(answer.probability.GetOr(0.0))
      && res.value.target == Some(challenge.probability.targetProbability)
      && (res.value.correct <==> answer.probability.GetOr(0.0) >= challenge.probability.targetProbability)
      && res.value.points == (if res.value.correct then 15 else 0)
    ensures challenge.Unrecognised? ==> res.Ok? && !res.value.correct && res.value.points == 0
  {
    match challenge
    case Matching(c) =>
      var correct := AnswerText(answer) == c.correctAnswer;
      Ok(Verdict(correct, if correct then WellDone else TryAgain, if correct then 10 else 0,
                 Some(c.correctAnswer), None, None))
    case Probability(c) =>
      if answer.Text? then Err(NoGetOnText)
      else
        var measured := answer.probability.GetOr(0.0);
        var correct := measured >= c.targetProbability;
        Ok(Verdict(correct, if correct then FoundIt(measured) else TooLow(measured, c.targetProbability),
                   if correct then 15 else 0, None, Some(measured), Some(c.targetProbability)))
    case Unrecognised(_) =>
      Ok(Verdict(false, UnknownType, 0, None, None, None))
  }

  /** On a generated quiz, picking an option is scored correct exactly when the option is
      the target. */
  lemma PickedOptionCorrectIff(c: MatchingChallenge, t: Triple)
    requires c.correctAnswer == TupleString(c.target)
    ensures ValidateChallengeAnswer(Matching(c), Text(TupleString(t))).value.correct <==> t == c.target
  {
    if TupleString(t) == TupleString(c.target) {
      TupleStringInjective(t, c.target);
    }
  }
}
