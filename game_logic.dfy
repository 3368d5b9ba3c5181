/**
 * The pure half of `utils/gameLogic.ts`: the scoring rule, answer validation, rank assignment,
 * time formatting and the two game-state predicates.
 */
module GameLogic {
  import opened Text
  import opened Types

  /** `SCORING_RULES`. */
  const CorrectAnswer: int := 100
  const IncorrectAnswer: int := -25
  const SpeedBonus: int := 30
  const SpeedBonusThresholdMs: int := 20000

  /** The default `minPlayers` of `canStartGame`. */
  const DefaultMinPlayers: int := 2

  datatype Breakdown = Breakdown(basePoints: int, bonus: int, total: int)

  /**
   * The points rule shared by every call site; each site fixes its own speed-bonus threshold.
   */
  function Points(isCorrect: bool, responseTimeMs: int, thresholdMs: int): (b: Breakdown)
    ensures !isCorrect ==> b == Breakdown(IncorrectAnswer, 0, IncorrectAnswer)
    ensures isCorrect ==> b.basePoints == CorrectAnswer
    ensures b.bonus == SpeedBonus <==> isCorrect && responseTimeMs < thresholdMs
    ensures b.bonus == 0 || b.bonus == SpeedBonus
    ensures b.total == b.basePoints + b.bonus
    ensures b.total == -25 || b.total == 100 || b.total == 130
  {
    var basePoints := if isCorrect then CorrectAnswer else IncorrectAnswer;
    var bonus := if isCorrect && responseTimeMs < thresholdMs then SpeedBonus else 0;
    Breakdown(basePoints, bonus, basePoints + bonus)
  }

  /** `calculatePoints`: the rule with the 20000 ms threshold of `SCORING_RULES`. */
  function CalculatePoints(isCorrect: bool, responseTimeMs: int): (b: Breakdown)
    ensures b.basePoints == (if isCorrect then 100 else -25)
    ensures b.bonus == (if isCorrect && responseTimeMs < 20000 then 30 else 0)
    ensures b.total == b.basePoints + b.bonus
  {
    Points(isCorrect, responseTimeMs, SpeedBonusThresholdMs)
  }

  /**
   * Two thresholds give different totals exactly for correct answers whose time lies between
   * them, and then the larger threshold pays the bonus.
   */
  lemma ThresholdsDisagree(isCorrect: bool, responseTimeMs: int, lo: int, hi: int)
    requires lo <= hi
    ensures Points(isCorrect, responseTimeMs, lo).total != Points(isCorrect, responseTimeMs, hi).total
        <==> isCorrect && lo <= responseTimeMs < hi
    ensures Points(isCorrect, responseTimeMs, hi).total - Points(isCorrect, responseTimeMs, lo).total
        == if isCorrect && lo <= responseTimeMs < hi then SpeedBonus else 0
  {
  }

  /** `validateAnswer`: trimmed, lower-cased equality. */
  function ValidateAnswer(userAnswer: string, correctAnswer: string): (ok: bool)
    ensures ToLower(userAnswer) == ToLower(correctAnswer) ==> ok
  {
    NormalizeLowersFirst(userAnswer);
    NormalizeLowersFirst(correctAnswer);
    Normalize(userAnswer) == Normalize(correctAnswer)
  }

  lemma NormalizeIgnoresPaddingAndCase(s: string, ws1: string, t: string, ws2: string)
    requires AllSpace(ws1) && AllSpace(ws2) && ToLower(t) == ToLower(s)
    ensures Normalize(ws1 + t + ws2) == Normalize(s)
  {
    TrimIgnoresPadding(ws1, t, ws2);
    NormalizeLowersFirst(t);
    NormalizeLowersFirst(s);
  }

  /**
   * Validation is symmetric, and neither surrounding whitespace nor letter case of either
   * argument changes its verdict.
   */
  lemma ValidateAnswerInsensitive(u: string, c: string, ws1: string, ws2: string, u': string, c': string)
    requires AllSpace(ws1) && AllSpace(ws2)
    requires ToLower(u') == ToLower(u) && ToLower(c') == ToLower(c)
    ensures ValidateAnswer(u, c) == ValidateAnswer(c, u)
    ensures ValidateAnswer(ws1 + u' + ws2, c) == ValidateAnswer(u, c)
    ensures ValidateAnswer(u, ws1 + c' + ws2) == ValidateAnswer(u, c)
  {
    NormalizeIgnoresPaddingAndCase(u, ws1, u', ws2);
    NormalizeIgnoresPaddingAndCase(c, ws1, c', ws2);
  }

  /** `calculateRankings`: every record keeps its fields and position and gains rank `index + 1`. */
  function CalculateRankings<T>(s: seq<T>): (r: seq<Ranked<T>>)
    ensures |r| == |s|
    ensures forall i :: 0 <= i < |s| ==> r[i].item == s[i] && r[i].rank == i + 1
  {
    seq(|s|, i requires 0 <= i < |s| => Ranked(s[i], i + 1))
  }

  /** The ranks of a ranking are distinct and are exactly 1..n. */
  lemma RanksArePositions<T>(s: seq<T>, k: int)
    ensures (exists i :: 0 <= i < |s| && CalculateRankings(s)[i].rank == k) <==> 1 <= k <= |s|
    ensures forall i, j :: 0 <= i < j < |s| ==> CalculateRankings(s)[i].rank < CalculateRankings(s)[j].rank
  {
    if 1 <= k <= |s| {
      assert CalculateRankings(s)[k - 1].rank == k;
    }
  }

  // ---------------------------------------------------------------------------
  // Formatting

  /** JavaScript's `%` for a positive divisor: the remainder takes the dividend's sign. */
  function TruncRem(a: int, d: int): (r: int)
    requires d > 0
    ensures a >= 0 ==> r == a % d
    ensures -d < r < d && (a < 0 ==> r <= 0)
    ensures (a - r) % d == 0
  {
    RemAligned(a, d);
    if a >= 0 then a % d else -((-a) % d)
  }

  /** A multiple of `d` leaves no remainder. */
  lemma MultipleRem(d: int, x: int)
    requires d > 0
    ensures (d * x) % d == 0
  {
    var y := d * x;
    var k := x - y / d;
    assert d * k == y % d by {
      assert y == d * (y / d) + y % d;
      assert d * k == d * x - d * (y / d);
    }
  }

  /** Both candidate remainders differ from `a` by a multiple of `d`. */
  lemma RemAligned(a: int, d: int)
    requires d > 0
    ensures (a - a % d) % d == 0
    ensures (a + (-a) % d) % d == 0
  {
    assert a - a % d == d * (a / d);
    MultipleRem(d, a / d);
    var q := (-a) / d;
    assert a + (-a) % d == d * (-q);
    MultipleRem(d, -q);
  }

  /** `formatTime`: minutes, a colon and the seconds padded to two characters. */
  function FormatTime(seconds: int): string {
    IntToString(seconds / 60) + ":" + PadStart2(IntToString(TruncRem(seconds, 60)))
  }

  /**
   * For a non-negative count of seconds the text reads back as `seconds / 60` minutes, a
   * colon, and exactly two digits that read back as `seconds % 60`.
   */
  lemma FormatTimeReadsBack(seconds: int)
    requires seconds >= 0
    ensures var r := FormatTime(seconds);
      && |r| >= 4 && r[|r| - 3] == ':'
      && AllDigits(r[..|r| - 3]) && DigitsValue(r[..|r| - 3]) == seconds / 60
      && AllDigits(r[|r| - 2..]) && DigitsValue(r[|r| - 2..]) == seconds % 60
      && DigitsValue(r[..|r| - 3]) * 60 + DigitsValue(r[|r| - 2..]) == seconds
  {
    var m := NatToString(seconds / 60);
    var p := PadStart2(NatToString(seconds % 60));
    NatToStringReadsBack(seconds / 60);
    TwoDigits(seconds % 60);
    var r := FormatTime(seconds);
    assert r == m + ":" + p;
    assert r[..|r| - 3] == m;
    assert r[|r| - 2..] == p;
  }

  /** `formatDuration`: whole seconds as "Ns" below a minute, otherwise "Mm Ss". */
  function FormatDuration(ms: int): string {
    var seconds := ms / 1000;
    if seconds < 60 then
      IntToString(seconds) + "s"
    else
      NatToString(seconds / 60) + "m " + NatToString(seconds % 60) + "s"
  }

  /**
   * The text always ends in "s". A negative count of whole seconds (floor of `ms / 1000`) is
   * a minus sign and its digits; below a minute the digits before "s" read back as the whole
   * seconds; otherwise the text splits at "m " into minutes and a remainder below 60 that
   * together give back the whole seconds.
   */
  lemma FormatDurationReadsBack(ms: int)
    ensures var s := ms / 1000; var r := FormatDuration(ms);
      && |r| >= 2 && r[|r| - 1] == 's'
      && (s < 0 ==> |r| >= 3 && r[0] == '-' && AllDigits(r[1..|r| - 1]) && DigitsValue(r[1..|r| - 1]) == -s)
      && (0 <= s < 60 ==> AllDigits(r[..|r| - 1]) && DigitsValue(r[..|r| - 1]) == s)
      && (s >= 60 ==> exists i :: (0 < i && i + 3 <= |r| && r[i] == 'm' && r[i + 1] == ' '
                                   && AllDigits(r[..i]) && AllDigits(r[i + 2..|r| - 1])
                                   && DigitsValue(r[i + 2..|r| - 1]) < 60
                                   && DigitsValue(r[..i]) * 60 + DigitsValue(r[i + 2..|r| - 1]) == s))
  {
    var s := ms / 1000;
    var r := FormatDuration(ms);
    if s < 0 {
      NatToStringReadsBack(-s);
      assert r == "-" + NatToString(-s) + "s";
      assert r[1..|r| - 1] == NatToString(-s);
    } else if s < 60 {
      NatToStringReadsBack(s);
      assert r[..|r| - 1] == NatToString(s);
    } else {
      var m := NatToString(s / 60);
      var t := NatToString(s % 60);
      NatToStringReadsBack(s / 60);
      NatToStringReadsBack(s % 60);
      assert r == m + "m " + t + "s";
      var i := |m|;
      assert r[..i] == m;
      assert r[i + 2..|r| - 1] == t;
      assert r[i] == 'm' && r[i + 1] == ' ';
    }
  }

  /**
   * On answers already in normal form (trimmed, lower case) validation is plain equality, so a
   * different answer is rejected.
   */
  lemma ValidateAnswerExact(u: string, c: string)
    requires Normalize(u) == u && Normalize(c) == c
    ensures ValidateAnswer(u, c) <==> u == c
  {
  }

  /**
   * An accepted answer has, once trimmed, the length of the correct one: answers of different
   * trimmed length are rejected.
   */
  lemma ValidateAnswerLength(u: string, c: string)
    ensures ValidateAnswer(u, c) ==> |Trim(u)| == |Trim(c)|
  {
  }

  /** `canStartGame`. */
  function CanStartGame<T>(participants: seq<T>, minPlayers: int): bool {
    |participants| >= minPlayers
  }

  /** `isAcceptingParticipants`. */
  function IsAcceptingParticipants(status: Status): bool {
    status == Pending
  }

  /**
   * By default two participants are enough to start; one more participant never makes a
   * startable game unstartable; only a pending game accepts participants.
   */
  lemma StartRules<T>(participants: seq<T>, newcomer: T, minPlayers: int, status: Status)
    ensures CanStartGame(participants, DefaultMinPlayers) <==> |participants| >= 2
    ensures CanStartGame(participants, minPlayers) ==> CanStartGame(participants + [newcomer], minPlayers)
    ensures IsAcceptingParticipants(status) <==> status !in {Active, Finished}
  {
  }
}
