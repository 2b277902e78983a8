/**
 * The weekly study-time allocation: shares over the four modules, limited in how far they may move from
 * last week's shares and brought back to a total of one by handing out the residual in rounds.
 */
module Allocation {
  import opened Wrappers
  import opened Rounding

  datatype Module = Listening | Reading | Writing | Speaking

  const MODULES: seq<Module> := [Listening, Reading, Writing, Speaking]
  const TOLERANCE: real := 0.000000001
  const ROUNDS: nat := 12

  /** A dictionary keyed by the four modules. */
  datatype Shares = Shares(listening: real, reading: real, writing: real, speaking: real) {
    function Of(m: Module): real
    {
      match m
      case Listening => listening
      case Reading => reading
      case Writing => writing
      case Speaking => speaking
    }

    function With(m: Module, value: real): Shares
    {
      match m
      case Listening => this.(listening := value)
      case Reading => this.(reading := value)
      case Writing => this.(writing := value)
      case Speaking => this.(speaking := value)
    }
  }

  datatype AllocationError = WeightsNotPositive

  function Total(s: Shares): (t: real)
  {
    s.listening + s.reading + s.writing + s.speaking
  }

  function Clamp(value: real, low: real, high: real): (r: real)
  {
    Max(low, Min(high, value))
  }

  function Low(previous: Shares, maximum: real, m: Module): real
  {
    previous.Of(m) - maximum
  }

  function High(previous: Shares, maximum: real, m: Module): real
  {
    previous.Of(m) + maximum
  }

  function ClampedShare(candidate: Shares, previous: Shares, maximum: real, m: Module): real
  {
    Clamp(candidate.Of(m), Low(previous, maximum, m), High(previous, maximum, m))
  }

  function Clamped(candidate: Shares, previous: Shares, maximum: real): (r: Shares)
  {
    Shares(ClampedShare(candidate, previous, maximum, Listening), ClampedShare(candidate, previous, maximum, Reading),
           ClampedShare(candidate, previous, maximum, Writing), ClampedShare(candidate, previous, maximum, Speaking))
  }

  function Residual(s: Shares): real
  {
    1.0 - Total(s)
  }

  /** The test that puts a module on the list of those that can still take part of the residual. */
  predicate Eligible(s: Shares, previous: Shares, maximum: real, residual: real, m: Module)
  {
    || (residual > 0.0 && s.Of(m) < High(previous, maximum, m) - TOLERANCE)
    || (residual < 0.0 && s.Of(m) > Low(previous, maximum, m) + TOLERANCE)
  }

  function One(b: bool): nat
  {
    if b then 1 else 0
  }

  function EligibleCount(s: Shares, previous: Shares, maximum: real, residual: real): (n: nat)
  {
    One(Eligible(s, previous, maximum, residual, Listening)) + One(Eligible(s, previous, maximum, residual, Reading))
    + One(Eligible(s, previous, maximum, residual, Writing)) + One(Eligible(s, previous, maximum, residual, Speaking))
  }

  /** A module's share after being offered `part`, given whether the residual lets it take any. */
  function AfterOffer(s: Shares, previous: Shares, maximum: real, residual: real, part: real, m: Module): real
  {
    if Eligible(s, previous, maximum, residual, m)
    then Clamp(s.Of(m) + part, Low(previous, maximum, m), High(previous, maximum, m))
    else s.Of(m)
  }

  function Offered(s: Shares, previous: Shares, maximum: real, residual: real, part: real): Shares
  {
    Shares(AfterOffer(s, previous, maximum, residual, part, Listening),
           AfterOffer(s, previous, maximum, residual, part, Reading),
           AfterOffer(s, previous, maximum, residual, part, Writing),
           AfterOffer(s, previous, maximum, residual, part, Speaking))
  }

  /** One round: every eligible module takes an equal part of the residual, up to its own limit. */
  function HandOut(s: Shares, previous: Shares, maximum: real): (r: Shares)
    requires EligibleCount(s, previous, maximum, Residual(s)) > 0
  {
    var residual := Residual(s);
    Offered(s, previous, maximum, residual, residual / EligibleCount(s, previous, maximum, residual) as real)
  }

  predicate Settled(s: Shares, previous: Shares, maximum: real)
  {
    Abs(Residual(s)) < TOLERANCE || EligibleCount(s, previous, maximum, Residual(s)) == 0
  }

  /** At most `rounds` rounds, stopping early when the total is right or nobody can move. */
  function HandOutRounds(s: Shares, previous: Shares, maximum: real, rounds: nat): (r: Shares)
    decreases rounds
  {
    if rounds == 0 || Settled(s, previous, maximum) then s
    else HandOutRounds(HandOut(s, previous, maximum), previous, maximum, rounds - 1)
  }

  function Capped(candidate: Shares, previous: Shares, maximum: real): Shares
  {
    HandOutRounds(Clamped(candidate, previous, maximum), previous, maximum, ROUNDS)
  }

  ghost predicate WithinCaps(s: Shares, previous: Shares, maximum: real)
  {
    forall m: Module :: Low(previous, maximum, m) <= s.Of(m) <= High(previous, maximum, m)
  }

  // ---- one round --------------------------------------------------------------------------------

  /** How far a module can still move in the direction of the residual. */
  function Slack(s: Shares, previous: Shares, maximum: real, up: bool, m: Module): real
  {
    if up then High(previous, maximum, m) - s.Of(m) else s.Of(m) - Low(previous, maximum, m)
  }

  /** What one module takes in a round when every eligible module is offered `part`. */
  function Taken(slack: real, part: real): real
  {
    if slack > TOLERANCE then Min(slack, part) else 0.0
  }

  /** The four slacks in the direction of the residual. */
  function Slacks(s: Shares, previous: Shares, maximum: real, up: bool): Shares
  {
    Shares(Slack(s, previous, maximum, up, Listening), Slack(s, previous, maximum, up, Reading),
           Slack(s, previous, maximum, up, Writing), Slack(s, previous, maximum, up, Speaking))
  }

  function TakenInAll(slacks: Shares, part: real): real
  {
    Taken(slacks.listening, part) + Taken(slacks.reading, part)
    + Taken(slacks.writing, part) + Taken(slacks.speaking, part)
  }

  function AbleToMove(slacks: Shares): nat
  {
    One(slacks.listening > TOLERANCE) + One(slacks.reading > TOLERANCE)
    + One(slacks.writing > TOLERANCE) + One(slacks.speaking > TOLERANCE)
  }

  function AbleAfter(slacks: Shares, part: real): nat
  {
    One(slacks.listening - Taken(slacks.listening, part) > TOLERANCE)
    + One(slacks.reading - Taken(slacks.reading, part) > TOLERANCE)
    + One(slacks.writing - Taken(slacks.writing, part) > TOLERANCE)
    + One(slacks.speaking - Taken(slacks.speaking, part) > TOLERANCE)
  }

  /**
   * The arithmetic of a round on four slacks: what is taken never exceeds the residual, and unless all of it
   * is taken at least one module that could move no longer can.
   */
  lemma RoundOnSlacks(slacks: Shares, residual: real, part: real)
    requires residual > 0.0
    requires AbleToMove(slacks) > 0 && part == residual / AbleToMove(slacks) as real
    ensures part > 0.0
    ensures 0.0 < TakenInAll(slacks, part) <= residual
    ensures TakenInAll(slacks, part) == residual || AbleAfter(slacks, part) < AbleToMove(slacks)
  {
    var count := AbleToMove(slacks);
    if count == 1 {
      assert part == residual;
    } else if count == 2 {
      assert part + part == residual;
    } else if count == 3 {
      assert part + part + part == residual;
    } else {
      assert part + part + part + part == residual;
    }
  }

  lemma OfferedShares(s: Shares, previous: Shares, maximum: real, residual: real, part: real)
    requires WithinCaps(s, previous, maximum)
    requires (residual > 0.0 && part > 0.0) || (residual < 0.0 && part < 0.0)
    ensures var r, up := Offered(s, previous, maximum, residual, part), residual > 0.0;
            && WithinCaps(r, previous, maximum)
            && forall m: Module ::
                 var taken := Taken(Slack(s, previous, maximum, up, m), Abs(part));
                 && Slack(r, previous, maximum, up, m) == Slack(s, previous, maximum, up, m) - taken
                 && r.Of(m) == s.Of(m) + if up then taken else -taken
  {
    forall m: Module
      ensures Offered(s, previous, maximum, residual, part).Of(m) == AfterOffer(s, previous, maximum, residual, part, m)
    {
      OfferTaken(s, previous, maximum, residual, part, m);
    }
  }

  lemma EligibleAreAble(s: Shares, previous: Shares, maximum: real, residual: real)
    requires residual != 0.0
    ensures EligibleCount(s, previous, maximum, residual) == AbleToMove(Slacks(s, previous, maximum, residual > 0.0))
  {
  }

  /** The state a round leaves, in terms of slacks: nobody leaves its limits and the residual shrinks by what is taken. */
  lemma OfferedOnSlacks(s: Shares, previous: Shares, maximum: real, residual: real, part: real)
    requires WithinCaps(s, previous, maximum)
    requires (residual > 0.0 && part > 0.0) || (residual < 0.0 && part < 0.0)
    ensures var r := Offered(s, previous, maximum, residual, part);
            var up := residual > 0.0;
            var slacks := Slacks(s, previous, maximum, up);
            && WithinCaps(r, previous, maximum)
            && EligibleCount(s, previous, maximum, residual) == AbleToMove(slacks)
            && AbleToMove(Slacks(r, previous, maximum, up)) == AbleAfter(slacks, Abs(part))
            && Residual(r) == Residual(s) + (if up then -TakenInAll(slacks, Abs(part)) else TakenInAll(slacks, Abs(part)))
  {
    OfferedShares(s, previous, maximum, residual, part);
    EligibleAreAble(s, previous, maximum, residual);
  }

  /** A module offered its part moves by exactly what it takes, and stays inside its limits. */
  lemma OfferTaken(s: Shares, previous: Shares, maximum: real, residual: real, part: real, m: Module)
    requires Low(previous, maximum, m) <= s.Of(m) <= High(previous, maximum, m)
    requires (residual > 0.0 && part > 0.0) || (residual < 0.0 && part < 0.0)
    ensures var share := AfterOffer(s, previous, maximum, residual, part, m);
            var taken := Taken(Slack(s, previous, maximum, residual > 0.0, m), Abs(part));
            && Low(previous, maximum, m) <= share <= High(previous, maximum, m)
            && share == s.Of(m) + (if residual > 0.0 then taken else -taken)
  {
  }

  /** Each round moves the residual towards zero without crossing it, and finishes or saturates one more module. */
  lemma RoundProgress(s: Shares, previous: Shares, maximum: real)
    requires WithinCaps(s, previous, maximum)
    requires !Settled(s, previous, maximum)
    ensures var r := HandOut(s, previous, maximum);
            && WithinCaps(r, previous, maximum)
            && (Residual(s) > 0.0 ==> 0.0 <= Residual(r) < Residual(s))
            && (Residual(s) < 0.0 ==> Residual(s) < Residual(r) <= 0.0)
            && (|| Residual(r) == 0.0
                || EligibleCount(r, previous, maximum, Residual(r))
                   < EligibleCount(s, previous, maximum, Residual(s)))
  {
    var residual := Residual(s);
    var count := EligibleCount(s, previous, maximum, residual);
    var part := residual / count as real;
    PartOfResidual(residual, count, part);
    OfferedOnSlacks(s, previous, maximum, residual, part);
    RoundOnSlacks(Slacks(s, previous, maximum, residual > 0.0), Abs(residual), Abs(part));
  }

  lemma PartOfResidual(residual: real, count: nat, part: real)
    requires 1 <= count <= 4 && part == residual / count as real && residual != 0.0
    ensures Abs(part) == Abs(residual) / count as real
    ensures residual > 0.0 ==> part > 0.0
    ensures residual < 0.0 ==> part < 0.0
  {
    if count == 1 {
    } else if count == 2 {
    } else if count == 3 {
    } else {
    }
  }

  // ---- all rounds -------------------------------------------------------------------------------

  /**
   * What decides whether the rounds always reach a total of one: how far the previous shares are from one,
   * against the room the limits leave once a module within TOLERANCE of its limit counts as full.
   */
  predicate AlwaysReachesOne(previous: Shares, maximum: real)
  {
    Abs(Residual(previous)) + 4.0 * Min(maximum, TOLERANCE - maximum) < TOLERANCE
  }

  lemma StuckResidual(s: Shares, previous: Shares, maximum: real)
    requires maximum >= 0.0
    requires WithinCaps(s, previous, maximum)
    requires EligibleCount(s, previous, maximum, Residual(s)) == 0
    ensures Abs(Residual(s)) <= Max(0.0, Abs(Residual(previous)) + 4.0 * Min(maximum, TOLERANCE - maximum))
  {
    forall m: Module
      ensures Residual(s) > 0.0 ==> previous.Of(m) - s.Of(m) <= Min(maximum, TOLERANCE - maximum)
      ensures Residual(s) < 0.0 ==> s.Of(m) - previous.Of(m) <= Min(maximum, TOLERANCE - maximum)
    {
      assert Low(previous, maximum, m) <= s.Of(m) <= High(previous, maximum, m);
      assert !Eligible(s, previous, maximum, Residual(s), m);
    }
  }

  lemma {:induction false} RoundsConverge(s: Shares, previous: Shares, maximum: real, rounds: nat)
    requires maximum >= 0.0 && AlwaysReachesOne(previous, maximum)
    requires WithinCaps(s, previous, maximum)
    requires EligibleCount(s, previous, maximum, Residual(s)) <= rounds
    ensures Abs(Residual(HandOutRounds(s, previous, maximum, rounds))) < TOLERANCE
    decreases rounds
  {
    if Settled(s, previous, maximum) {
      SettledIsOne(s, previous, maximum);
    } else {
      var r := HandOut(s, previous, maximum);
      RoundProgress(s, previous, maximum);
      if Residual(r) == 0.0 {
        assert Settled(r, previous, maximum);
        assert HandOutRounds(s, previous, maximum, rounds) == r;
      } else {
        RoundsConverge(r, previous, maximum, rounds - 1);
      }
    }
  }

  lemma SettledIsOne(s: Shares, previous: Shares, maximum: real)
    requires maximum >= 0.0 && AlwaysReachesOne(previous, maximum)
    requires WithinCaps(s, previous, maximum) && Settled(s, previous, maximum)
    ensures Abs(Residual(s)) < TOLERANCE
  {
    if EligibleCount(s, previous, maximum, Residual(s)) == 0 {
      StuckResidual(s, previous, maximum);
    }
  }

  lemma {:induction false} RoundsStayWithinCaps(s: Shares, previous: Shares, maximum: real, rounds: nat)
    requires WithinCaps(s, previous, maximum)
    ensures WithinCaps(HandOutRounds(s, previous, maximum, rounds), previous, maximum)
    decreases rounds
  {
    if rounds > 0 && !Settled(s, previous, maximum) {
      RoundProgress(s, previous, maximum);
      RoundsStayWithinCaps(HandOut(s, previous, maximum), previous, maximum, rounds - 1);
    }
  }

  /** The residual never changes sign over any number of rounds. */
  lemma {:induction false} ResidualKeepsSign(s: Shares, previous: Shares, maximum: real, rounds: nat)
    requires WithinCaps(s, previous, maximum)
    ensures var r := HandOutRounds(s, previous, maximum, rounds);
            && (Residual(s) >= 0.0 ==> 0.0 <= Residual(r) <= Residual(s))
            && (Residual(s) <= 0.0 ==> Residual(s) <= Residual(r) <= 0.0)
    decreases rounds
  {
    if rounds > 0 && !Settled(s, previous, maximum) {
      RoundProgress(s, previous, maximum);
      ResidualKeepsSign(HandOut(s, previous, maximum), previous, maximum, rounds - 1);
    }
  }

  /** A candidate whose clamped shares all sit where the loop takes them for full, with the whole residual left. */
  function StuckCandidate(previous: Shares, maximum: real): Shares
  {
    var step := Min(maximum, TOLERANCE - maximum);
    var move := if Residual(previous) >= 0.0 then -step else step;
    Shares(previous.listening + move, previous.reading + move, previous.writing + move, previous.speaking + move)
  }

  lemma StuckCandidateStays(previous: Shares, maximum: real)
    requires maximum >= 0.0 && !AlwaysReachesOne(previous, maximum)
    ensures Abs(Residual(Capped(StuckCandidate(previous, maximum), previous, maximum))) >= TOLERANCE
  {
    var candidate := StuckCandidate(previous, maximum);
    assert Clamped(candidate, previous, maximum) == candidate;
    assert EligibleCount(candidate, previous, maximum, Residual(candidate)) == 0;
  }

  /**
   * Twelve rounds bring every candidate's total to within a billionth of one exactly when AlwaysReachesOne holds,
   * and always keep every module within `maximum` of its previous share.
   */
  lemma TwelveRoundsSuffice(previous: Shares, maximum: real)
    requires maximum >= 0.0
    ensures forall candidate: Shares :: WithinCaps(Capped(candidate, previous, maximum), previous, maximum)
    ensures AlwaysReachesOne(previous, maximum)
            <==> forall candidate: Shares :: Abs(Residual(Capped(candidate, previous, maximum))) < 0.000000001
  {
    forall candidate: Shares
      ensures WithinCaps(Capped(candidate, previous, maximum), previous, maximum)
      ensures AlwaysReachesOne(previous, maximum) ==> Abs(Residual(Capped(candidate, previous, maximum))) < TOLERANCE
    {
      var s := Clamped(candidate, previous, maximum);
      ClampedWithinCaps(candidate, previous, maximum);
      RoundsStayWithinCaps(s, previous, maximum, ROUNDS);
      if AlwaysReachesOne(previous, maximum) {
        RoundsConverge(s, previous, maximum, ROUNDS);
      }
    }
    if !AlwaysReachesOne(previous, maximum) {
      StuckCandidateStays(previous, maximum);
    }
  }

  lemma ClampedWithinCaps(candidate: Shares, previous: Shares, maximum: real)
    requires maximum >= 0.0
    ensures WithinCaps(Clamped(candidate, previous, maximum), previous, maximum)
  {
    forall m: Module
      ensures Low(previous, maximum, m) <= Clamped(candidate, previous, maximum).Of(m) <= High(previous, maximum, m)
    {
      assert Clamped(candidate, previous, maximum).Of(m) == ClampedShare(candidate, previous, maximum, m);
    }
  }

  /** With previous shares that sum to one, only maxima between a quarter and three quarters of a billionth fail. */
  lemma MaximaThatSuffice(previous: Shares, maximum: real)
    requires Total(previous) == 1.0 && maximum >= 0.0
    ensures AlwaysReachesOne(previous, maximum) <==> (maximum < 0.00000000025 || 0.00000000075 < maximum)
  {
  }

  /** Four rounds already do what twelve do. */
  lemma FourRoundsAreEnough(candidate: Shares, previous: Shares, maximum: real)
    requires maximum >= 0.0 && AlwaysReachesOne(previous, maximum)
    ensures Capped(candidate, previous, maximum)
            == HandOutRounds(Clamped(candidate, previous, maximum), previous, maximum, 4)
  {
    var s := Clamped(candidate, previous, maximum);
    ClampedWithinCaps(candidate, previous, maximum);
    RoundsConverge(s, previous, maximum, 4);
    ExtraRoundsIdle(s, previous, maximum, 4, ROUNDS);
  }

  lemma {:induction false} ExtraRoundsIdle(s: Shares, previous: Shares, maximum: real, rounds: nat, more: nat)
    requires rounds <= more
    requires Settled(HandOutRounds(s, previous, maximum, rounds), previous, maximum)
    ensures HandOutRounds(s, previous, maximum, more) == HandOutRounds(s, previous, maximum, rounds)
    decreases rounds
  {
    if rounds > 0 && !Settled(s, previous, maximum) {
      ExtraRoundsIdle(HandOut(s, previous, maximum), previous, maximum, rounds - 1, more - 1);
    }
  }

  // ---- normalisation ----------------------------------------------------------------------------

  /** Each module's share of the total. */
  function ExactShares(s: Shares): (r: Shares)
    requires Total(s) > 0.0
  {
    var t := Total(s);
    Shares(s.listening / t, s.reading / t, s.writing / t, s.speaking / t)
  }

  /** Four-decimal shares, with whatever rounding left over or missing added to listening. */
  function Normalised(values: Shares): (r: Result<Shares, AllocationError>)
  {
    if Total(values) <= 0.0 then Err(WeightsNotPositive)
    else Ok(DriftRepaired(RoundedShares(ExactShares(values))))
  }

  function RoundedShares(s: Shares): (r: Shares)
  {
    Shares(Round4(s.listening), Round4(s.reading), Round4(s.writing), Round4(s.speaking))
  }

  function DriftRepaired(rounded: Shares): (r: Shares)
  {
    var drift := Round4(1.0 - Total(rounded));
    rounded.(listening := Round4(rounded.listening + drift))
  }

  /** The rounding error a module's share may carry: half a unit, and three halves for listening, which takes the drift. */
  function RoundingError(m: Module): real
  {
    if m == Listening then 0.00015 else 0.00005
  }

  ghost predicate FourDecimals(s: Shares)
  {
    forall m: Module :: Round4(s.Of(m)) == s.Of(m)
  }

  lemma ExactSharesSumToOne(s: Shares)
    requires Total(s) > 0.0
    ensures Total(ExactShares(s)) == 1.0
  {
    var t := Total(s);
    QuotientOfSum(s.listening, s.reading, t);
    QuotientOfSum(s.listening + s.reading, s.writing, t);
    QuotientOfSum(s.listening + s.reading + s.writing, s.speaking, t);
    assert t == s.listening + s.reading + s.writing + s.speaking;
  }

  /** In units of a ten-thousandth, the repair sets listening to whatever the other three leave of ten thousand. */
  lemma RepairInUnits(l: int, r: int, w: int, s: int)
    ensures var rounded := Shares(l as real / 10000.0, r as real / 10000.0, w as real / 10000.0, s as real / 10000.0);
            DriftRepaired(rounded) == rounded.(listening := (10000 - r - w - s) as real / 10000.0)
  {
    var drift := 10000 - l - r - w - s;
    Round4OfUnits(drift);
    Round4OfUnits(l + drift);
    assert 1.0 - (l as real / 10000.0 + r as real / 10000.0 + w as real / 10000.0 + s as real / 10000.0)
        == drift as real / 10000.0;
    assert l as real / 10000.0 + drift as real / 10000.0 == (l + drift) as real / 10000.0;
  }

  lemma UnitsAreFourDecimals(l: int, r: int, w: int, s: int)
    ensures FourDecimals(Shares(l as real / 10000.0, r as real / 10000.0, w as real / 10000.0, s as real / 10000.0))
  {
    Round4OfUnits(l);
    Round4OfUnits(r);
    Round4OfUnits(w);
    Round4OfUnits(s);
  }

  /** The rounded shares as whole numbers of ten-thousandths. */
  ghost predicate InUnits(rounded: Shares, l: int, r: int, w: int, s: int)
  {
    rounded == Shares(l as real / 10000.0, r as real / 10000.0, w as real / 10000.0, s as real / 10000.0)
  }

  lemma RoundedInUnits(exact: Shares) returns (l: int, r: int, w: int, s: int)
    ensures InUnits(RoundedShares(exact), l, r, w, s)
  {
    l, r := Nearest(exact.listening * 10000.0), Nearest(exact.reading * 10000.0);
    w, s := Nearest(exact.writing * 10000.0), Nearest(exact.speaking * 10000.0);
  }

  lemma RepairedRounding(exact: Shares)
    requires Total(exact) == 1.0
    ensures Total(DriftRepaired(RoundedShares(exact))) == 1.0
    ensures FourDecimals(DriftRepaired(RoundedShares(exact)))
    ensures forall m: Module :: Abs(DriftRepaired(RoundedShares(exact)).Of(m) - exact.Of(m)) <= RoundingError(m)
  {
    var rounded := RoundedShares(exact);
    var l, r, w, s := RoundedInUnits(exact);
    RepairInUnits(l, r, w, s);
    var repaired := DriftRepaired(rounded);
    assert repaired == rounded.(listening := (10000 - r - w - s) as real / 10000.0);
    UnitsAreFourDecimals(10000 - r - w - s, r, w, s);
    RepairedTotal(10000 - r - w - s, r, w, s);
    RepairedErrors(exact, repaired);
  }

  lemma RepairedTotal(l: int, r: int, w: int, s: int)
    requires l + r + w + s == 10000
    ensures l as real / 10000.0 + r as real / 10000.0 + w as real / 10000.0 + s as real / 10000.0 == 1.0
  {
    assert l as real + r as real + w as real + s as real == 10000.0;
  }

  lemma RepairedErrors(exact: Shares, result: Shares)
    requires Total(exact) == 1.0 && Total(result) == 1.0
    requires result.reading == Round4(exact.reading)
    requires result.writing == Round4(exact.writing)
    requires result.speaking == Round4(exact.speaking)
    ensures forall m: Module :: Abs(result.Of(m) - exact.Of(m)) <= RoundingError(m)
  {
    assert Abs(result.reading - exact.reading) <= 0.00005;
    assert Abs(result.writing - exact.writing) <= 0.00005;
    assert Abs(result.speaking - exact.speaking) <= 0.00005;
  }

  /** Normalisation refuses exactly the totals that are not positive, and otherwise returns shares that sum to exactly one. */
  lemma NormalisedSumsToOne(values: Shares)
    ensures Normalised(values).Err? <==> Total(values) <= 0.0
    ensures Total(values) > 0.0 ==>
              var r := Normalised(values).value;
              && Total(r) == 1.0 && FourDecimals(r)
              && forall m: Module ::
                   Abs(r.Of(m) - ExactShares(values).Of(m)) <= if m == Listening then 0.00015 else 0.00005
  {
    if Total(values) > 0.0 {
      ExactSharesSumToOne(values);
      RepairedRounding(ExactShares(values));
    }
  }

  lemma QuotientError(x: real, total: real, bound: real)
    requires total > 0.0 && Abs(1.0 - total) <= bound
    ensures Abs(x / total - x) <= Abs(x / total) * bound
  {
    var q := x / total;
    QuotientOfSum(x, 0.0, total);
    assert q * total == x;
    ScaledBound(q, total, bound);
  }

  lemma ScalingError(capped: Shares, m: Module)
    requires Abs(Residual(capped)) < TOLERANCE
    ensures Abs(ExactShares(capped).Of(m) - capped.Of(m)) <= Abs(ExactShares(capped).Of(m)) * TOLERANCE
  {
    QuotientError(capped.Of(m), Total(capped), TOLERANCE);
    assert ExactShares(capped).Of(m) == capped.Of(m) / Total(capped);
  }

  lemma TwoErrors(result: real, exact: real, capped: real, previous: real, maximum: real, first: real, second: real)
    requires Abs(result - exact) <= first && Abs(exact - capped) <= second
    requires previous - maximum <= capped <= previous + maximum
    ensures Abs(result - previous) <= maximum + first + second
  {
  }

  lemma NormalisedChange(capped: Shares, previous: Shares, maximum: real, m: Module)
    requires Abs(Residual(capped)) < TOLERANCE
    requires previous.Of(m) - maximum <= capped.Of(m) <= previous.Of(m) + maximum
    ensures Normalised(capped).Ok?
    ensures Abs(Normalised(capped).value.Of(m) - previous.Of(m))
            <= maximum + RoundingError(m) + Abs(ExactShares(capped).Of(m)) * TOLERANCE
  {
    ScalingError(capped, m);
    NormalisedSumsToOne(capped);
    TwoErrors(Normalised(capped).value.Of(m), ExactShares(capped).Of(m), capped.Of(m), previous.Of(m), maximum,
              RoundingError(m), Abs(ExactShares(capped).Of(m)) * TOLERANCE);
  }

  lemma ChangeOfOneShare(candidate: Shares, previous: Shares, maximum: real, m: Module)
    requires maximum >= 0.0 && AlwaysReachesOne(previous, maximum)
    ensures var capped := Capped(candidate, previous, maximum);
            && Total(capped) > 0.0
            && Abs(Normalised(capped).value.Of(m) - previous.Of(m))
               <= maximum + RoundingError(m) + Abs(ExactShares(capped).Of(m)) * TOLERANCE
  {
    TwelveRoundsSuffice(previous, maximum);
    var capped := Capped(candidate, previous, maximum);
    assert Low(previous, maximum, m) <= capped.Of(m) <= High(previous, maximum, m);
    NormalisedChange(capped, previous, maximum, m);
  }

  /**
   * The whole of the weekly limit: for every candidate the result is a set of shares summing to exactly one, each
   * at most `maximum` away from last week's plus the rounding error plus the loop tolerance on its own share.
   */
  lemma WeeklyChangeIsLimited(candidate: Shares, previous: Shares, maximum: real)
    requires maximum >= 0.0 && AlwaysReachesOne(previous, maximum)
    ensures
      var capped := Capped(candidate, previous, maximum);
      && Total(capped) > 0.0
      && Normalised(capped).Ok? && Total(Normalised(capped).value) == 1.0
      && forall m: Module :: Abs(Normalised(capped).value.Of(m) - previous.Of(m))
                             <= maximum + RoundingError(m) + Abs(ExactShares(capped).Of(m)) * TOLERANCE
  {
    ChangeOfOneShare(candidate, previous, maximum, Listening);
    NormalisedSumsToOne(Capped(candidate, previous, maximum));
    forall m: Module
      ensures Abs(Normalised(Capped(candidate, previous, maximum)).value.Of(m) - previous.Of(m))
              <= maximum + RoundingError(m)
                 + Abs(ExactShares(Capped(candidate, previous, maximum)).Of(m)) * TOLERANCE
    {
      ChangeOfOneShare(candidate, previous, maximum, m);
    }
  }

  lemma NonnegativeQuotient(a: real, t: real)
    requires t > 0.0 && a >= 0.0
    ensures a / t >= 0.0
  {
  }

  /** When no previous share is below the maximum shift, the tolerance term is at most the tolerance itself. */
  lemma ChangeOfOrdinaryShares(candidate: Shares, previous: Shares, maximum: real, m: Module)
    requires maximum >= 0.0 && AlwaysReachesOne(previous, maximum)
    requires forall k: Module :: previous.Of(k) >= maximum
    ensures var capped := Capped(candidate, previous, maximum);
            && Total(capped) > 0.0
            && Abs(Normalised(capped).value.Of(m) - previous.Of(m)) <= maximum + RoundingError(m) + 0.000000001
  {
    ChangeOfOneShare(candidate, previous, maximum, m);
    TwelveRoundsSuffice(previous, maximum);
    var capped := Capped(candidate, previous, maximum);
    var exact := ExactShares(capped);
    forall k: Module
      ensures exact.Of(k) >= 0.0
    {
      assert Low(previous, maximum, k) <= capped.Of(k);
      NonnegativeQuotient(capped.Of(k), Total(capped));
    }
    ExactSharesSumToOne(capped);
    assert exact.Of(Listening) >= 0.0 && exact.Of(Reading) >= 0.0 && exact.Of(Writing) >= 0.0 && exact.Of(Speaking) >= 0.0;
    ProductBound(TOLERANCE, exact.Of(m), 1.0);
  }

  // ---- the methods ------------------------------------------------------------------------------

  method Normalise(values: Shares) returns (r: Result<Shares, AllocationError>)
    ensures r == Normalised(values)
  {
    var total := Total(values);
    if total <= 0.0 {
      return Err(WeightsNotPositive);
    }
    var result := Shares(Round4(values.listening / total), Round4(values.reading / total),
                         Round4(values.writing / total), Round4(values.speaking / total));
    var drift := Round4(1.0 - Total(result));
    result := result.With(Listening, Round4(result.listening + drift));
    return Ok(result);
  }

  method CapShift(candidate: Shares, previous: Shares, maximum: real)
    returns (r: Result<Shares, AllocationError>)
    ensures r == Normalised(Capped(candidate, previous, maximum))
  {
    var capped := Clamped(candidate, previous, maximum);
    var rounds := 0;
    while rounds < ROUNDS
      invariant rounds <= ROUNDS
      invariant HandOutRounds(capped, previous, maximum, ROUNDS - rounds) == Capped(candidate, previous, maximum)
    {
      var residual := 1.0 - Total(capped);
      if Abs(residual) < TOLERANCE {
        break;
      }
      var eligible := SelectEligible(capped, previous, maximum, residual);
      if eligible == [] {
        break;
      }
      capped := Offer(capped, previous, maximum, residual, eligible, residual / |eligible| as real);
      rounds := rounds + 1;
    }
    r := Normalise(capped);
  }

  method SelectEligible(capped: Shares, previous: Shares, maximum: real, residual: real)
    returns (eligible: seq<Module>)
    ensures |eligible| == EligibleCount(capped, previous, maximum, residual)
    ensures forall m: Module :: m in eligible <==> Eligible(capped, previous, maximum, residual, m)
    ensures forall i, j :: 0 <= i < j < |eligible| ==> eligible[i] != eligible[j]
  {
    eligible := [];
    for i := 0 to |MODULES|
      invariant eligible == EligibleAmong(capped, previous, maximum, residual, i)
    {
      var low, high := previous.Of(MODULES[i]) - maximum, previous.Of(MODULES[i]) + maximum;
      if residual > 0.0 && capped.Of(MODULES[i]) < high - TOLERANCE {
        eligible := eligible + [MODULES[i]];
      } else if residual < 0.0 && capped.Of(MODULES[i]) > low + TOLERANCE {
        eligible := eligible + [MODULES[i]];
      }
    }
    EligibleAmongAll(capped, previous, maximum, residual);
  }

  method Offer(shares: Shares, previous: Shares, maximum: real, residual: real, eligible: seq<Module>, part: real)
    returns (capped: Shares)
    requires forall m: Module :: m in eligible <==> Eligible(shares, previous, maximum, residual, m)
    requires forall i, j :: 0 <= i < j < |eligible| ==> eligible[i] != eligible[j]
    ensures capped == Offered(shares, previous, maximum, residual, part)
  {
    capped := shares;
    for i := 0 to |eligible|
      invariant forall m: Module ::
                  capped.Of(m) == if m in eligible[..i] then AfterOffer(shares, previous, maximum, residual, part, m)
                                  else shares.Of(m)
    {
      var m := eligible[i];
      var low, high := previous.Of(m) - maximum, previous.Of(m) + maximum;
      capped := capped.With(m, Clamp(capped.Of(m) + part, low, high));
      assert eligible[..i + 1] == eligible[..i] + [m];
    }
    assert eligible[..|eligible|] == eligible;
    assert forall m: Module :: capped.Of(m) == AfterOffer(shares, previous, maximum, residual, part, m);
    assert capped == Shares(capped.Of(Listening), capped.Of(Reading), capped.Of(Writing), capped.Of(Speaking));
  }

  /** The eligible modules among the first `upTo`, in the order of MODULES. */
  function EligibleAmong(s: Shares, previous: Shares, maximum: real, residual: real, upTo: nat): (r: seq<Module>)
    requires upTo <= |MODULES|
  {
    if upTo == 0 then []
    else EligibleAmong(s, previous, maximum, residual, upTo - 1)
         + if Eligible(s, previous, maximum, residual, MODULES[upTo - 1]) then [MODULES[upTo - 1]] else []
  }

  lemma EligibleAmongAll(s: Shares, previous: Shares, maximum: real, residual: real)
    ensures var eligible := EligibleAmong(s, previous, maximum, residual, |MODULES|);
            && |eligible| == EligibleCount(s, previous, maximum, residual)
            && (forall m: Module :: m in eligible <==> Eligible(s, previous, maximum, residual, m))
            && (forall i, j :: 0 <= i < j < |eligible| ==> eligible[i] != eligible[j])
  {
    assert MODULES == [Listening, Reading, Writing, Speaking];
    var none := EligibleAmong(s, previous, maximum, residual, 0);
    var one := EligibleAmong(s, previous, maximum, residual, 1);
    var two := EligibleAmong(s, previous, maximum, residual, 2);
    var three := EligibleAmong(s, previous, maximum, residual, 3);
    forall m: Module
      ensures m in EligibleAmong(s, previous, maximum, residual, 4) <==> Eligible(s, previous, maximum, residual, m)
    {
      assert m == Listening || m == Reading || m == Writing || m == Speaking;
    }
  }

  // ---- the candidate ----------------------------------------------------------------------------

  /** What the profile and the recent sessions say, one value per module where the source keeps a dictionary. */
  datatype Signals = Signals(
    average: map<Module, real>,      // modules with a recent average or a stated current band
    target: Shares,
    minimumRequired: Shares,
    dormant: set<Module>,            // modules without a recent session
    writingAtRisk: bool)

  datatype Policy = Policy(sharedByReceptive: real, lowest: real, highest: real, maximumShift: real)

  function Gap(signals: Signals, m: Module): (gap: real)
    ensures gap >= 0.0
  {
    if m in signals.average then Max(0.0, signals.target.Of(m) - signals.average[m]) else 0.25
  }

  /** The part of the week that goes to listening and reading together. */
  function ReceptiveShare(signals: Signals, policy: Policy): (r: real)
    ensures policy.lowest <= policy.highest ==> policy.lowest <= r <= policy.highest
  {
    var serious := Max(Gap(signals, Listening), Gap(signals, Reading)) >= 0.75;
    var productiveBelowMinimum :=
      exists m | m in [Writing, Speaking] ::
        m in signals.average && signals.average[m] < signals.minimumRequired.Of(m);
    var receptiveStable :=
      forall m | m in [Listening, Reading] ::
        m in signals.average && signals.average[m] >= signals.target.Of(m) - 0.25;
    var raised := if serious then policy.sharedByReceptive + 0.05 else policy.sharedByReceptive;
    var shifted :=
      if productiveBelowMinimum then raised - 0.10
      else if receptiveStable && (Gap(signals, Writing) > 0.25 || Gap(signals, Speaking) > 0.25) then raised - 0.05
      else raised;
    Clamp(shifted, policy.lowest, policy.highest)
  }

  const SPEAKING_FLOOR: real := 0.08

  /** The place of a module in MODULES. */
  function Place(m: Module): (i: nat)
    ensures i < |MODULES| && MODULES[i] == m
  {
    match m
    case Listening => 0
    case Reading => 1
    case Writing => 2
    case Speaking => 3
  }

  /** The maintenance weight of a dormant module, once the loop has passed its place. */
  function Maintenance(signals: Signals, passed: nat, m: Module): (r: real)
    ensures 0.0 <= r <= 0.35
  {
    if Place(m) < passed && m in signals.dormant then 0.35 else 0.0
  }

  function Weights(signals: Signals, passed: nat, atRisk: bool): Shares
  {
    Shares(1.0 + Gap(signals, Listening) + Maintenance(signals, passed, Listening),
           1.0 + Gap(signals, Reading) + Maintenance(signals, passed, Reading),
           1.7 + Gap(signals, Writing) + Maintenance(signals, passed, Writing) + (if atRisk then 0.35 else 0.0),
           0.8 + Gap(signals, Speaking) + Maintenance(signals, passed, Speaking))
  }

  method CandidateWeights(signals: Signals) returns (weights: Shares)
    ensures weights == Weights(signals, |MODULES|, signals.writingAtRisk)
  {
    weights := Shares(1.0 + Gap(signals, Listening), 1.0 + Gap(signals, Reading),
                      1.7 + Gap(signals, Writing), 0.8 + Gap(signals, Speaking));
    for i := 0 to |MODULES|
      invariant weights == Weights(signals, i, false)
    {
      if MODULES[i] in signals.dormant {
        weights := weights.With(MODULES[i], weights.Of(MODULES[i]) + 0.35);
      }
    }
    if signals.writingAtRisk {
      weights := weights.With(Writing, weights.writing + 0.35);
    }
  }

  // ---- how the candidate follows the signals ----------------------------------------------------

  /** A module whose recent average is known to be short of its target by so much, or by more. */
  predicate ShortBy(signals: Signals, m: Module, bands: real)
  {
    m in signals.average && signals.target.Of(m) - signals.average[m] >= bands
  }

  /** What is missing to the target: nothing once it is reached, and a quarter of a band where nothing is known. */
  function Missing(signals: Signals, m: Module): (missing: real)
    ensures missing >= 0.0
  {
    if m !in signals.average then 0.25
    else if ShortBy(signals, m, 0.0) then signals.target.Of(m) - signals.average[m]
    else 0.0
  }

  /** What a module pulls towards itself: its standing, what it misses, and 35 hundredths each for dormancy and risk. */
  function Pull(signals: Signals, m: Module): (pull: real)
    ensures pull > 0.0
  {
    var standing := match m case Listening => 1.0 case Reading => 1.0 case Writing => 1.7 case Speaking => 0.8;
    standing + Missing(signals, m)
    + (if m in signals.dormant then 0.35 else 0.0)
    + (if m == Writing && signals.writingAtRisk then 0.35 else 0.0)
  }

  /** A part that stands to the rest of the whole as two weights stand to each other. */
  predicate IsPart(part: real, whole: real, weight: real, other: real)
  {
    part * other == (whole - part) * weight
  }

  /** The part of the rest of the week that speaking pulls towards itself. */
  ghost predicate IsSpeakingPart(signals: Signals, receptive: real, part: real)
  {
    IsPart(part, 1.0 - receptive, Pull(signals, Speaking), Pull(signals, Writing))
  }

  /**
   * Listening and reading divide the receptive share as they pull, writing and speaking the rest, except that speaking
   * gets eight hundredths at least and writing gives them up.
   */
  ghost predicate FollowsSignals(signals: Signals, receptive: real, shares: Shares)
  {
    && shares.listening + shares.reading == receptive && Total(shares) == 1.0
    && IsPart(shares.listening, receptive, Pull(signals, Listening), Pull(signals, Reading))
    && exists part: real ::
         IsSpeakingPart(signals, receptive, part) && shares.speaking == if part < 0.08 then 0.08 else part
  }

  lemma WeightsArePulls(signals: Signals)
    ensures forall m: Module :: Weights(signals, |MODULES|, signals.writingAtRisk).Of(m) == Pull(signals, m)
  {
  }

  lemma HeavierSideIsLarger(first: real, second: real, weight: real, other: real)
    requires first * other == second * weight && first + second > 0.0 && weight > other > 0.0
    ensures first > second
  {
    var excess := weight - other;
    SumTimes(second, other, excess);
    assert second * weight == second * other + second * excess;
    if first <= second {
      ProductOrder(first, second, other);
      ProductSign(second, excess);
    }
  }

  /** The part that pulls more than the rest is larger than the rest. */
  lemma MorePullLargerPart(part: real, whole: real, pull: real, other: real)
    requires IsPart(part, whole, pull, other) && whole > 0.0 && pull > other > 0.0
    ensures part > whole - part
  {
    HeavierSideIsLarger(part, whole - part, pull, other);
  }

  lemma SamePullSamePart(part: real, whole: real, pull: real)
    requires IsPart(part, whole, pull, pull) && pull > 0.0
    ensures part == whole - part
  {
    var excess := 2.0 * part - whole;
    assert excess * pull == part * pull - (whole - part) * pull;
    assert -excess * pull == -(excess * pull);
    if excess > 0.0 {
      ProductSign(excess, pull);
    } else if excess < 0.0 {
      ProductSign(-excess, pull);
    }
  }

  lemma RestIsPart(part: real, whole: real, pull: real, other: real)
    requires IsPart(part, whole, pull, other)
    ensures IsPart(whole - part, whole, other, pull)
  {
  }

  /** Where neither is dormant, the receptive module that misses more of its target gets more of the receptive share. */
  lemma MoreMissingMoreShare(signals: Signals, receptive: real, shares: Shares)
    requires FollowsSignals(signals, receptive, shares) && receptive > 0.0
    requires Listening !in signals.dormant && Reading !in signals.dormant
    requires Listening in signals.average && Reading in signals.average
    ensures var listening := signals.target.listening - signals.average[Listening];
            var reading := signals.target.reading - signals.average[Reading];
            && (listening > 0.0 && listening > reading ==> shares.listening > shares.reading)
            && (reading > 0.0 && reading > listening ==> shares.reading > shares.listening)
            && (listening <= 0.0 && reading <= 0.0 ==> shares.listening == shares.reading)
  {
    var listening, reading := Pull(signals, Listening), Pull(signals, Reading);
    if listening > reading {
      MorePullLargerPart(shares.listening, receptive, listening, reading);
    } else if reading > listening {
      RestIsPart(shares.listening, receptive, listening, reading);
      MorePullLargerPart(shares.reading, receptive, reading, listening);
    } else {
      SamePullSamePart(shares.listening, receptive, listening);
    }
  }

  predicate KnownBelow(signals: Signals, m: Module, bound: real)
  {
    m in signals.average && signals.average[m] < bound
  }

  /**
   * The receptive share: the policy's own, raised by a twentieth when listening or reading is at least three quarters
   * of a band short; lowered by a tenth when writing or speaking is below its minimum, or else by a twentieth when
   * listening and reading are known to be within a quarter of a band of their targets and writing or speaking is known
   * not to be; and always within the policy's bounds,
   * of which the lower one prevails.
   */
  lemma ReceptiveShareFollows(signals: Signals, policy: Policy)
    ensures var raise := if ShortBy(signals, Listening, 0.75) || ShortBy(signals, Reading, 0.75) then 0.05 else 0.0;
            var belowMinimum := KnownBelow(signals, Writing, signals.minimumRequired.writing)
                                || KnownBelow(signals, Speaking, signals.minimumRequired.speaking);
            var stable := {Listening, Reading} <= signals.average.Keys
                          && !KnownBelow(signals, Listening, signals.target.listening - 0.25)
                          && !KnownBelow(signals, Reading, signals.target.reading - 0.25);
            var wanting := KnownBelow(signals, Writing, signals.target.writing - 0.25)
                           || KnownBelow(signals, Speaking, signals.target.speaking - 0.25);
            var share := policy.sharedByReceptive + raise - (if belowMinimum then 0.10 else if stable && wanting then 0.05 else 0.0);
            && (policy.lowest <= share <= policy.highest ==> ReceptiveShare(signals, policy) == share)
            && (share < policy.lowest ==> ReceptiveShare(signals, policy) == policy.lowest)
            && (share > policy.highest ==> ReceptiveShare(signals, policy) == Max(policy.lowest, policy.highest))
  {
  }

  /**
   * The candidate before the weekly limit: it follows the signals, and leaves writing a share that is non-negative
   * exactly when the receptive share leaves room for the speaking floor.
   */
  method CandidateShares(signals: Signals, receptive: real) returns (candidate: Shares)
    ensures FollowsSignals(signals, receptive, candidate)
    ensures receptive >= 0.0 ==> candidate.listening >= 0.0 && candidate.reading >= 0.0
    ensures candidate.writing >= 0.0 <==> receptive <= 1.0 - SPEAKING_FLOOR
  {
    var weights := CandidateWeights(signals);
    WeightsArePulls(signals);
    var l, r := Parts(receptive, weights.listening, weights.reading);
    var s, w := Parts(1.0 - receptive, weights.speaking, weights.writing);
    candidate := Shares(l, r, w, Max(s, SPEAKING_FLOOR));
    candidate := candidate.(writing := 1.0 - candidate.listening - candidate.reading - candidate.speaking);
    assert IsSpeakingPart(signals, receptive, s);
  }

  /** A whole divided in the proportion of two positive weights. */
  method Parts(whole: real, a: real, b: real) returns (first: real, second: real)
    requires 0.0 < a && 0.0 < b
    ensures IsPart(first, whole, a, b) && first + second == whole
    ensures whole >= 0.0 ==> 0.0 <= first <= whole
    ensures whole <= 0.0 ==> first <= 0.0
  {
    first, second := whole * a / (a + b), whole * b / (a + b);
    PartsOfWhole(whole, a, b);
    PartsStandAs(whole, a, b);
  }

  lemma PartsStandAs(whole: real, a: real, b: real)
    requires 0.0 < a && 0.0 < b
    ensures IsPart(whole * a / (a + b), whole, a, b)
  {
    var part := whole * a / (a + b);
    QuotientOfSum(whole * a, 0.0, a + b);
    assert part * (a + b) == whole * a;
    assert part * (a + b) == part * a + part * b && (whole - part) * a == whole * a - part * a;
  }

  lemma PartsOfWhole(whole: real, a: real, b: real)
    requires 0.0 < a && 0.0 < b
    ensures whole * a / (a + b) + whole * b / (a + b) == whole
    ensures whole >= 0.0 ==> 0.0 <= whole * a / (a + b) && 0.0 <= whole * b / (a + b)
    ensures whole <= 0.0 ==> whole * a / (a + b) <= 0.0
  {
    var x, y, t := whole * a, whole * b, a + b;
    QuotientOfSum(x, y, t);
    assert x + y == whole * t;
    ProductOfQuotient(whole, t);
    if whole >= 0.0 {
      NonnegativeQuotient(x, t);
      NonnegativeQuotient(y, t);
    }
    if whole <= 0.0 {
      assert x <= 0.0;
      NonnegativeQuotient(-x, t);
      QuotientOfSum(x, -x, t);
    }
  }

  lemma ProductOfQuotient(whole: real, t: real)
    requires t > 0.0
    ensures whole * t / t == whole
  {
    QuotientOfSum(whole * t, 0.0, t);
    assert (whole * t / t - whole) * t == 0.0;
  }

  ghost predicate IsRounded(exact: Shares, rounded: Shares)
  {
    forall m: Module :: Abs(rounded.Of(m) - exact.Of(m)) <= RoundingError(m)
  }

  /**
   * The published allocation (the reasons and evidence stored beside it are not modelled) with the candidate it
   * was limited from.
   */
  method RecommendAllocation(signals: Signals, policy: Policy, previous: Shares)
    returns (candidate: Shares, allocation: Result<Shares, AllocationError>)
    ensures Total(candidate) == 1.0 && FourDecimals(candidate)
    ensures candidate.speaking >= SPEAKING_FLOOR
    ensures exists raw: Shares :: FollowsSignals(signals, ReceptiveShare(signals, policy), raw) && IsRounded(raw, candidate)
    ensures allocation == Normalised(Capped(candidate, previous, policy.maximumShift))
    ensures policy.maximumShift >= 0.0 && AlwaysReachesOne(previous, policy.maximumShift) ==>
              && Total(Capped(candidate, previous, policy.maximumShift)) > 0.0
              && allocation.Ok? && Total(allocation.value) == 1.0
              && forall m: Module ::
                   Abs(allocation.value.Of(m) - previous.Of(m))
                   <= policy.maximumShift + RoundingError(m)
                      + Abs(ExactShares(Capped(candidate, previous, policy.maximumShift)).Of(m)) * TOLERANCE
  {
    var raw := CandidateShares(signals, ReceptiveShare(signals, policy));
    var normalised := Normalise(raw);
    candidate := normalised.value;
    CandidateIsRounded(raw);
    assert FollowsSignals(signals, ReceptiveShare(signals, policy), raw) && IsRounded(raw, candidate);
    allocation := CapShift(candidate, previous, policy.maximumShift);
    if policy.maximumShift >= 0.0 && AlwaysReachesOne(previous, policy.maximumShift) {
      WeeklyChangeIsLimited(candidate, previous, policy.maximumShift);
    }
  }

  lemma CandidateIsRounded(raw: Shares)
    requires Total(raw) == 1.0 && raw.speaking >= SPEAKING_FLOOR
    ensures Normalised(raw).Ok?
    ensures var candidate := Normalised(raw).value;
            && Total(candidate) == 1.0 && FourDecimals(candidate) && IsRounded(raw, candidate)
            && candidate.speaking >= SPEAKING_FLOOR
  {
    NormalisedSumsToOne(raw);
    assert ExactShares(raw) == raw;
    SpeakingStaysAtFloor(raw);
  }

  lemma SpeakingStaysAtFloor(raw: Shares)
    requires Total(raw) == 1.0 && raw.speaking >= SPEAKING_FLOOR
    ensures Normalised(raw).value.speaking >= SPEAKING_FLOOR
  {
    NearestIsMonotone(800.0, raw.speaking * 10000.0);
    NearestOfWhole(800);
  }
}
