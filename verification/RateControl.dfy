/**
 The choice of the transmit rate in the RT61 driver: set when the link comes up, adapted
 every second, and lowered by a timer shortly after it was raised.
 */
module RateControl {
  const RATE_1 := 0
  const RATE_2 := 1
  const RATE_5_5 := 2
  const RATE_11 := 3
  const RATE_6 := 4
  const RATE_9 := 5
  const RATE_12 := 6
  const RATE_18 := 7
  const RATE_24 := 8
  const RATE_36 := 9
  const RATE_48 := 10
  const RATE_54 := 11
  const RATES := 12
  const RATE_FIRST_OFDM_RATE := RATE_6
  const WORST := 3       // DRS_TX_QUALITY_WORST_BOUND

  const PHY11B_DOWN: seq<nat> := [RATE_1, RATE_1, RATE_2, RATE_5_5]
  const PHY11B_UP: seq<nat> := [RATE_2, RATE_5_5, RATE_11, RATE_11]
  const PHY11BG_DOWN: seq<nat> :=
    [RATE_1, RATE_1, RATE_2, RATE_5_5, RATE_11, RATE_6, RATE_11, RATE_12, RATE_18, RATE_24, RATE_36, RATE_48]
  const PHY11BG_UP: seq<nat> :=
    [RATE_2, RATE_5_5, RATE_11, RATE_12, RATE_9, RATE_12, RATE_18, RATE_24, RATE_36, RATE_48, RATE_54, RATE_54]
  const PHY11A_DOWN: seq<nat> :=
    [RATE_6, RATE_6, RATE_6, RATE_6, RATE_6, RATE_6, RATE_9, RATE_12, RATE_18, RATE_24, RATE_36, RATE_48]
  const PHY11A_UP: seq<nat> :=
    [RATE_9, RATE_9, RATE_9, RATE_9, RATE_9, RATE_12, RATE_18, RATE_24, RATE_36, RATE_48, RATE_54, RATE_54]
  const RATE_UP_PER: seq<nat> := [40, 40, 35, 20, 20, 20, 20, 16, 10, 16, 10, 6]
  const RATE_DOWN_PER: seq<nat> := [50, 50, 45, 45, 35, 35, 35, 35, 25, 25, 25, 13]
  const RSSI_SAFE_LEVEL: seq<int> := [-92, -91, -90, -87, -88, -86, -85, -83, -81, -78, -72, -71]

  function Min(a: nat, b: nat): nat { if a < b then a else b }

  // ---- the tables ----

  function UpFrom(ofdmOnly: bool, r: nat): (up: nat)
    requires r < RATES
    ensures r <= up < RATES && (up == r <==> r == RATE_54) && (ofdmOnly ==> up >= RATE_9)
  {
    Tables(r);
    if ofdmOnly then PHY11A_UP[r] else PHY11BG_UP[r]
  }

  function DownFrom(ofdmOnly: bool, r: nat): (down: nat)
    requires r < RATES
    ensures down < RATES
    ensures ofdmOnly ==> down >= RATE_6 && (r >= RATE_6 ==> down <= r)
    ensures !ofdmOnly ==> down <= r
  {
    Tables(r);
    if ofdmOnly then PHY11A_DOWN[r] else PHY11BG_DOWN[r]
  }

  /** What the tables promise of their entries. */
  lemma Tables(r: nat)
    requires r < RATES
    ensures PHY11A_UP[r] < RATES && PHY11BG_UP[r] < RATES && PHY11A_UP[r] >= RATE_9
    ensures RATE_6 <= PHY11A_DOWN[r] < RATES && (r >= RATE_6 ==> PHY11A_DOWN[r] <= r)
    ensures PHY11BG_DOWN[r] <= r
    ensures r < 4 ==> PHY11B_UP[r] < 4 && PHY11B_DOWN[r] <= r
    ensures r < RATE_54 ==> PHY11A_UP[r] > r && PHY11BG_UP[r] > r
    ensures PHY11A_UP[RATE_54] == PHY11BG_UP[RATE_54] == RATE_54
  {
    match r
    case 0 => case 1 => case 2 => case 3 => case 4 => case 5 =>
    case 6 => case 7 => case 8 => case 9 => case 10 => case 11 =>
  }

  /**
   Going up and then down leads back: through the old rates and 12 Mbps on where all are allowed, 6 and 9 Mbps lying
   beside that way; through the new rates where only they are.
   */
  lemma UpThenDown(r: nat)
    requires r < RATE_54
    ensures r != RATE_6 && r != RATE_9 ==> DownFrom(false, UpFrom(false, r)) == r
    ensures r >= RATE_6 ==> DownFrom(true, UpFrom(true, r)) == r && UpFrom(true, r) == r + 1
    ensures r < RATE_11 ==> PHY11B_UP[r] == UpFrom(false, r) == r + 1 && PHY11B_DOWN[r + 1] == r
  {
    match r
    case 0 => case 1 => case 2 => case 3 => case 4 => case 5 =>
    case 6 => case 7 => case 8 => case 9 => case 10 =>
  }

  // ---- rates in information elements ----

  /** The rates in half megabits a second. */
  const HALF_MEGABITS: seq<nat> := [2, 4, 11, 22, 12, 18, 24, 36, 48, 72, 96, 108]

  /** The rate that a number of half megabits stands for; the high bit marks a basic rate. */
  function Decode(b: nat): (r: nat)
    ensures r < RATES
  {
    var v := b % 0x80;
    if v == 4 then RATE_2 else if v == 11 then RATE_5_5 else if v == 22 then RATE_11
    else if v == 12 then RATE_6 else if v == 18 then RATE_9 else if v == 24 then RATE_12
    else if v == 36 then RATE_18 else if v == 48 then RATE_24 else if v == 72 then RATE_36
    else if v == 96 then RATE_48 else if v == 108 then RATE_54 else RATE_1
  }

  /**
   Every rate is known by its speed, whether marked as basic or not; anything else stands for the lowest rate. All that
   are marked are basic, and three of the others.
   */
  lemma DecodeSpeeds(r: nat, b: nat)
    requires r < RATES && b < 0x100
    ensures Decode(HALF_MEGABITS[r]) == Decode(HALF_MEGABITS[r] + 0x80) == r
    ensures Known(b) <==> b % 0x80 == HALF_MEGABITS[Decode(b)]
    ensures !Known(b) ==> Decode(b) == RATE_1
    ensures Basic(HALF_MEGABITS[r] + 0x80) && (Basic(HALF_MEGABITS[r]) <==> r == RATE_6 || r == RATE_12 || r == RATE_24)
  {
    match r
    case 0 => case 1 => case 2 => case 3 => case 4 => case 5 =>
    case 6 => case 7 => case 8 => case 9 => case 10 => case 11 =>
  }

  predicate Known(b: nat) {
    b % 0x80 in {2, 4, 11, 22, 12, 18, 24, 36, 48, 72, 96, 108}
  }

  /** A rate is basic when marked so, and 6, 12 and 24 Mbps always are. */
  predicate Basic(b: nat) {
    Known(b) && (b / 0x80 % 2 == 1 || Decode(b) in {RATE_6, RATE_12, RATE_24})
  }

  /** m is the highest rate in the list, or the lowest rate of all. */
  ghost predicate Highest(rates: seq<nat>, m: nat) {
    && (forall i :: 0 <= i < |rates| ==> Decode(rates[i]) <= m)
    && (m == RATE_1 || exists i :: 0 <= i < |rates| && Decode(rates[i]) == m)
  }

  function HighestOf(rates: seq<nat>): (m: nat)
    ensures Highest(rates, m) && m < RATES
  {
    if rates == [] then RATE_1
    else
      var n := |rates| - 1;
      var before := HighestOf(rates[..n]);
      assert Decode(rates[n]) > before || before == RATE_1 || exists i :: 0 <= i < n && Decode(rates[..n][i]) == before;
      if before < Decode(rates[n]) then Decode(rates[n]) else before
  }

  method MaxRate(rates: seq<nat>) returns (m: nat)
    ensures Highest(rates, m) && m == HighestOf(rates)
  {
    hide Highest;
    m := RATE_1;
    for i := 0 to |rates|
      invariant m == HighestOf(rates[..i])
    {
      assert rates[..i + 1][..i] == rates[..i];
      if m < Decode(rates[i]) {
        m := Decode(rates[i]);
      }
    }
    assert rates[..|rates|] == rates;
  }

  /** How many of the desired rates are rates at all. */
  function CountKnown(rates: seq<nat>): nat {
    if rates == [] then 0 else CountKnown(rates[..|rates| - 1]) + if Known(rates[|rates| - 1]) then 1 else 0
  }

  method CountDesired(rates: seq<nat>) returns (num: nat)
    ensures num == CountKnown(rates)
  {
    num := 0;
    for i := 0 to |rates|
      invariant num == CountKnown(rates[..i])
    {
      assert rates[..i + 1][..i] == rates[..i];
      if Known(rates[i]) {
        num := num + 1;
      }
    }
    assert rates[..|rates|] == rates;
  }

  function BasicRates(rates: seq<nat>): set<nat> {
    set i | 0 <= i < |rates| && Basic(rates[i]) :: Decode(rates[i])
  }

  method BasicBitmap(rates: seq<nat>) returns (bitmap: set<nat>)
    ensures bitmap == BasicRates(rates)
  {
    bitmap := {};
    for i := 0 to |rates|
      invariant bitmap == set k | 0 <= k < i && Basic(rates[k]) :: Decode(rates[k])
    {
      if Basic(rates[i]) {
        bitmap := bitmap + {Decode(rates[i])};
      }
    }
  }

  /** The highest basic rate that is not above r, or the lowest rate of all. */
  ghost predicate AckRate(basic: set<nat>, r: nat, ack: nat) {
    && (forall b :: b in basic && b <= r ==> b <= ack)
    && (ack == RATE_1 || (ack in basic && ack <= r))
  }

  method ExpectedAckRates(basic: set<nat>) returns (ack: seq<nat>)
    ensures |ack| == RATES && forall r :: 0 <= r < RATES ==> AckRate(basic, r, ack[r])
  {
    ack := [];
    var current := RATE_1;
    for i := 0 to RATES
      invariant |ack| == i && forall r :: 0 <= r < i ==> AckRate(basic, r, ack[r])
      invariant (forall b :: b in basic && b < i ==> b <= current)
                && (current == RATE_1 || (current in basic && current < i))
    {
      if i in basic {
        current := i;
      }
      ack := ack + [current];
    }
  }

  // ---- what the signal strength allows ----

  /** The rate for a signal when there is too little traffic to judge. */
  function RssiRate(dbm: int, ofdmOnly: bool): (r: nat)
    ensures r < RATES && (ofdmOnly ==> r >= RATE_6)
  {
    if dbm >= -65 then RATE_54
    else if dbm >= -66 then RATE_48
    else if dbm >= -70 then RATE_36
    else if dbm >= -74 then RATE_24
    else if dbm >= -77 then RATE_18
    else if dbm >= -79 then RATE_12
    else if dbm >= -81 then if ofdmOnly then RATE_9 else RATE_11
    else if ofdmOnly then RATE_6
    else if dbm >= -82 then RATE_11
    else if dbm >= -84 then RATE_5_5
    else if dbm >= -85 then RATE_2
    else RATE_1
  }

  /** The weakest signal that a rate is taken for; 9 Mb/s stands only among the new rates, 11 Mb/s only among all. */
  const RSSI_STEPS: seq<(nat, int)> :=
    [(RATE_54, -65), (RATE_48, -66), (RATE_36, -70), (RATE_24, -74), (RATE_18, -77), (RATE_12, -79)]
  const RSSI_STEPS_OLD: seq<(nat, int)> := [(RATE_11, -82), (RATE_5_5, -84), (RATE_2, -85)]

  /** A stronger signal never takes a lower rate, and every step lies where the table has it. */
  lemma RssiSteps(dbm: int, weaker: int, ofdmOnly: bool)
    requires weaker <= dbm
    ensures RssiRate(weaker, ofdmOnly) <= RssiRate(dbm, ofdmOnly)
    ensures RssiRate(dbm, true) >= RATE_6 && (RssiRate(dbm, false) >= RATE_12 || RssiRate(dbm, false) <= RATE_11)
    ensures forall s <- RSSI_STEPS :: RssiRate(dbm, ofdmOnly) >= s.0 <==> dbm >= s.1
    ensures RssiRate(dbm, true) >= RATE_9 <==> dbm >= -81
    ensures forall s <- RSSI_STEPS_OLD :: RssiRate(dbm, false) >= s.0 <==> dbm >= s.1
  {
  }

  /** The next rate down, but not below what the signal allows. */
  function FloorRate(dbm: int, ofdmOnly: bool, down: nat): (r: nat)
    requires down < RATES
    ensures r < RATES && (ofdmOnly && down >= RATE_6 ==> r >= RATE_6)
  {
    if dbm >= -45 && down < RATE_48 then RATE_48
    else if dbm >= -50 && down < RATE_36 then RATE_36
    else if dbm >= -55 && down < RATE_24 then RATE_24
    else if dbm >= -60 && down < RATE_18 then RATE_18
    else if dbm >= -65 && down < RATE_12 then RATE_12
    else if dbm >= -70 && down < RATE_9 then if ofdmOnly then RATE_9 else RATE_11
    else if dbm >= -75 && down < RATE_11 then RATE_11
    else down
  }

  /** The rates that a signal is too strong to go below. */
  const FLOORS: seq<(nat, int)> := [(RATE_48, -45), (RATE_36, -50), (RATE_24, -55), (RATE_18, -60), (RATE_12, -65)]

  /** The next rate down is left only for the highest rate whose signal is reached. */
  lemma FloorSteps(dbm: int, ofdmOnly: bool, down: nat)
    requires down < RATES
    ensures var r := FloorRate(dbm, ofdmOnly, down);
            && (forall s <- FLOORS :: dbm >= s.1 ==> r >= s.0)
            && (r >= RATE_12 && r != down ==> exists s <- FLOORS :: s.0 == r && dbm >= s.1 && down < r)
            && (dbm >= -75 ==> r >= RATE_11) && (dbm < -75 ==> r == down)
            && (r < RATE_12 && r != down ==> r == if ofdmOnly && dbm >= -70 then RATE_9 else RATE_11)
  {
    if dbm >= -45 && down < RATE_48 {
      assert FLOORS[0] == (RATE_48, -45);
    } else if dbm >= -50 && down < RATE_36 {
      assert FLOORS[1] == (RATE_36, -50);
    } else if dbm >= -55 && down < RATE_24 {
      assert FLOORS[2] == (RATE_24, -55);
    } else if dbm >= -60 && down < RATE_18 {
      assert FLOORS[3] == (RATE_18, -60);
    } else if dbm >= -65 && down < RATE_12 {
      assert FLOORS[4] == (RATE_12, -65);
    }
  }

  /** One rate beyond the next, over the two lowest of the new rates. */
  function Beyond(up: nat): (r: nat)
    ensures r > up
  {
    if up + 1 == RATE_6 || up + 1 == RATE_9 then RATE_12 else up + 1
  }

  /** The highest rate from r down that the signal is safe for. */
  function SafeFrom(dbm: int, r: nat): (safe: nat)
    requires r < RATES
    ensures safe <= r && (safe == RATE_1 || dbm > RSSI_SAFE_LEVEL[safe])
    ensures forall k :: safe < k <= r ==> dbm <= RSSI_SAFE_LEVEL[k]
  {
    if r == RATE_1 || dbm > RSSI_SAFE_LEVEL[r] then r else SafeFrom(dbm, r - 1)
  }

  // ---- the state ----

  datatype State = State(
    quality: seq<nat>, per: seq<nat>, rate: nat, max: nat, penalty: nat, stable: nat, noisy: bool,
    lastAction: nat,       // 0: none, 1: up, 2: down
    timer: bool,           // the timer that looks at a raised rate is running
    switching: bool,       // fOP_STATUS_TX_RATE_SWITCH_ENABLED
    ofdmOnly: bool)        // only the new rates are allowed: 5 GHz, or 802.11g alone

  /** Every index into a table is in range, and no quality is worse than the worst. */
  predicate Wf(s: State) {
    && |s.quality| == RATES && |s.per| == RATES && s.rate < RATES && s.max < RATES
    && (forall i :: 0 <= i < RATES ==> s.quality[i] <= WORST)
    && (!s.ofdmOnly ==> s.rate <= s.max)
  }

  /** The rate does not exceed the highest rate. */
  predicate Ok(s: State) { Wf(s) && s.rate <= s.max }

  // ---- the decision of one second ----

  /**
   The qualities after a second with so many errors: the present rate is judged, and good news also helps the next
   one up.
   */
  function Judged(q: seq<nat>, rate: nat, up: nat, ratio: nat, penalty: nat): (r: seq<nat>)
    requires |q| == RATES && rate < RATES && up < RATES
    ensures |r| == RATES && forall i :: 0 <= i < RATES && i != rate && i != up ==> r[i] == q[i]
  {
    if ratio >= RATE_DOWN_PER[rate] then q[rate := WORST]
    else if ratio <= RATE_UP_PER[rate] then
      var better := q[rate := Less(q[rate])];
      if penalty > 0 then better else better[up := Less(better[up])]
    else q
  }

  function Less(n: nat): nat { if n > 0 then n - 1 else 0 }

  predicate GoodNews(rate: nat, ratio: nat)
    requires rate < RATES
  {
    ratio < RATE_DOWN_PER[rate] && ratio <= RATE_UP_PER[rate]
  }

  function Up(s: State): (up: nat)
    requires s.rate < RATES && s.max < RATES
    ensures up <= s.max && (s.rate <= s.max ==> s.rate <= up)
  {
    Min(UpFrom(s.ofdmOnly, s.rate), s.max)
  }

  function JudgedState(s: State, ratio: nat): (t: State)
    requires Wf(s)
    ensures Wf(t)
  {
    s.(quality := Judged(s.quality, s.rate, Up(s), ratio, s.penalty), per := s.per[s.rate := ratio % 256],
       penalty := if GoodNews(s.rate, ratio) then Less(s.penalty) else s.penalty)
  }

  /** A lowered rate that is hardly better than the one above: blamed on noise. */
  predicate Noise(s: State)
    requires Wf(s)
  {
    var up := Up(s);
    up != s.rate && s.lastAction == 2 && s.per[s.rate] < 75 && (s.per[s.rate] > 20 || s.noisy)
        && s.per[s.rate] + 5 > s.per[up]
  }

  /** The noise is gone, and the signal is safe for a higher rate. */
  predicate Cleared(s: State, dbm: int)
    requires Wf(s)
  {
    s.noisy && s.per[s.rate] <= 12 && Min(SafeFrom(dbm, RATE_54), s.max) > s.rate
  }

  /** The present rate is bad and there is one below. */
  predicate Bad(s: State)
    requires Wf(s)
  {
    s.quality[s.rate] >= WORST && s.rate != DownFrom(s.ofdmOnly, s.rate)
  }

  function NextRate(s: State, dbm: int): (r: nat)
    requires Wf(s)
    ensures r <= s.max
  {
    if Noise(s) then Min(Beyond(Up(s)), s.max)
    else if Cleared(s, dbm) then Min(SafeFrom(dbm, RATE_54), s.max)
    else if Bad(s) then Min(FloorRate(dbm, s.ofdmOnly, DownFrom(s.ofdmOnly, s.rate)), s.max)
    else if s.quality[s.rate] == 0 && s.quality[Up(s)] == 0 then Up(s)
    else Min(s.rate, s.max)
  }

  /**
   The signal is too strong for the present rate, or the rate is not allowed at all: a bad rate is left for a higher
   one.
   */
  predicate TooStrong(dbm: int, ofdmOnly: bool, rate: nat) {
    || (ofdmOnly && rate < RATE_6)
    || (dbm >= -45 && rate < RATE_48) || (dbm >= -50 && rate < RATE_36) || (dbm >= -55 && rate < RATE_24)
    || (dbm >= -60 && rate < RATE_18) || (dbm >= -65 && rate < RATE_12)
    || (dbm >= -70 && rate < if ofdmOnly then RATE_9 else RATE_11)
    || (dbm >= -75 && rate < RATE_11)
  }

  /** The floor that the signal sets is above the present rate exactly for a signal that strong. */
  lemma FloorIff(dbm: int, ofdmOnly: bool, rate: nat)
    requires rate < RATES
    ensures FloorRate(dbm, ofdmOnly, DownFrom(ofdmOnly, rate)) > rate <==> TooStrong(dbm, ofdmOnly, rate)
  {
    match rate
    case 0 => case 1 => case 2 => case 3 => case 4 => case 5 =>
    case 6 => case 7 => case 8 => case 9 => case 10 => case 11 =>
  }

  /**
   The rate goes down only from a rate of the worst quality. On noise, and when it has cleared, it goes up. Otherwise a
   good rate is left for the next one up, and a bad one for a higher one exactly when the signal is too strong for it.
   */
  lemma NextRateLaws(s: State, dbm: int)
    requires Ok(s)
    ensures NextRate(s, dbm) < s.rate ==> s.quality[s.rate] >= WORST
    ensures Noise(s) || Cleared(s, dbm) ==> NextRate(s, dbm) > s.rate
    ensures !Noise(s) && !Cleared(s, dbm) ==>
              (NextRate(s, dbm) > s.rate <==>
                s.rate < s.max && if Bad(s) then TooStrong(dbm, s.ofdmOnly, s.rate)
                                  else s.quality[s.rate] == 0 && s.quality[Up(s)] == 0)
    ensures s.ofdmOnly && s.rate >= RATE_6 && s.max >= RATE_6 ==> NextRate(s, dbm) >= RATE_6
  {
    hide FloorRate, SafeFrom, DownFrom, UpFrom, TooStrong;
    FloorIff(dbm, s.ofdmOnly, s.rate);
  }

  /** A rate that is too bad to keep, with a strong signal: the rate goes up from 6 to 48 Mbps. */
  lemma BadGoesUp(s: State)
    requires Ok(s) && s.rate == RATE_6 && s.max >= RATE_48 && s.quality[RATE_6] == WORST && !s.ofdmOnly
             && s.lastAction != 2 && !s.noisy
    ensures Bad(s) && NextRate(s, -45) == RATE_48
  {
  }

  const WORD := 0x1_0000_0000

  /** Frames lost or repeated, in percent, in 32-bit arithmetic. */
  function ErrorRatio(retry: nat, fail: nat, total: nat): nat
    requires total > 0
  {
    (retry + fail) * 100 % WORD / total
  }

  function Total(noRetry: nat, retry: nat, fail: nat): nat {
    (noRetry + retry + fail) % WORD
  }

  /** As long as the product fits, the ratio is the percentage, rounded down, of frames repeated or lost. */
  lemma RatioIsPercentage(noRetry: nat, retry: nat, fail: nat)
    requires 0 < noRetry + retry + fail < WORD && (retry + fail) * 100 < WORD
    ensures Total(noRetry, retry, fail) == noRetry + retry + fail
    ensures var r, total := ErrorRatio(retry, fail, Total(noRetry, retry, fail)), noRetry + retry + fail;
            r * total <= 100 * (retry + fail) < (r + 1) * total && r <= 100
  {
    hide ErrorRatio;
    var total := noRetry + retry + fail;
    PercentageOf((retry + fail) * 100, total, ErrorRatio(retry, fail, total)) by {
      RatioIs(retry, fail, total);
    }
  }

  lemma RatioIs(retry: nat, fail: nat, total: nat)
    requires total > 0 && (retry + fail) * 100 < WORD
    ensures ErrorRatio(retry, fail, total) == (retry + fail) * 100 / total
  {
  }

  lemma PercentageOf(n: nat, total: nat, r: nat)
    requires total > 0 && n <= 100 * total && r == n / total
    ensures r * total <= n < (r + 1) * total && r <= 100
  {
    assert n == r * total + n % total;
    assert (r + 1) * total == r * total + total;
    assert r * total == 100 * total + (r - 100) * total;
    NotPositive(r - 100, total);
  }

  lemma NotPositive(k: int, d: int)
    requires d > 0 && k * d <= 0
    ensures k <= 0
  {
  }

  // ---- the steps ----

  /** What twelve zeroed bytes do to twelve entries of two bytes each. */
  function HalfZeroed(q: seq<nat>): (r: seq<nat>)
    requires |q| == RATES
    ensures |r| == RATES && forall i :: 0 <= i < RATES ==> r[i] == if i < RATES / 2 then 0 else q[i]
  {
    seq(RATES, i requires 0 <= i < RATES => if i < RATES / 2 then 0 else q[i])
  }

  function AllZero(): (r: seq<nat>)
    ensures |r| == RATES
  {
    seq(RATES, _ => 0)
  }

  function TunedState(s: State, dbm: int, ratio: nat): (t: State)
    requires Wf(s)
    ensures Ok(t)
  {
    var v := JudgedState(s, ratio);
    v.(rate := NextRate(v, dbm), noisy := Noise(v) || (v.noisy && v.per[v.rate] > 12))
  }

  /** What a change of rate does to the history. */
  function ChangedState(s: State, was: nat): (t: State)
    requires Wf(s)
    ensures Wf(t) && t.rate == s.rate && t.max == s.max && t.ofdmOnly == s.ofdmOnly && t.switching == s.switching
    ensures t.timer <==> s.timer || s.rate > was
  {
    if s.rate > was then
      s.(stable := 0, penalty := 0, lastAction := 1, quality := HalfZeroed(s.quality), per := AllZero(), timer := true)
    else if s.rate < was then
      s.(stable := 0, penalty := 0, lastAction := 2, quality := s.quality[s.rate := 0], per := s.per[s.rate := 0])
    else s.(lastAction := 0)
  }

  /** MlmeDynamicTxRateSwitching, once a second. */
  function SecondState(s: State, dbm: int, noRetry: nat, retry: nat, fail: nat): (t: State)
    requires Wf(s)
    ensures Wf(t)
  {
    var total := Total(noRetry, retry, fail);
    if !s.switching then s
    else if total <= 15 then
      s.(penalty := 0, quality := HalfZeroed(s.quality), per := AllZero(),
         rate := Min(RssiRate(dbm, s.ofdmOnly), s.max))
    else ChangedState(TunedState(s.(stable := s.stable + 1), dbm, ErrorRatio(retry, fail, total)), s.rate)
  }

  /** The rate that the timer routine goes down to. */
  function QuickDown(s: State): (down: nat)
    requires Wf(s)
    ensures down < RATES && (!s.ofdmOnly ==> down <= s.rate)
    ensures s.ofdmOnly ==> down >= RATE_6 && (s.rate >= RATE_6 ==> down <= s.rate)
  {
    Tables(s.rate);
    if !s.ofdmOnly && s.max < RATE_FIRST_OFDM_RATE then PHY11B_DOWN[s.rate] else DownFrom(s.ofdmOnly, s.rate)
  }

  /** The present rate has the worst quality, or is about to get it. */
  predicate GoesDown(s: State, retry: nat, fail: nat, total: nat)
    requires Wf(s)
  {
    s.quality[s.rate] >= WORST || (total > 15 && ErrorRatio(retry, fail, total) >= RATE_DOWN_PER[s.rate])
  }

  /** StaQuickResponeForRateUpExec, when the timer that a raised rate has started runs out. */
  function TimerState(s: State, connected: bool, noRetry: nat, retry: nat, fail: nat): (t: State)
    requires Wf(s)
    ensures Wf(t) && !t.timer && t.max == s.max && t.ofdmOnly == s.ofdmOnly
  {
    var total := Total(noRetry, retry, fail);
    if !(connected && total > 0) then s.(timer := false)
    else
      var ratio := if total > 15 then ErrorRatio(retry, fail, total) else 0;
      var bad := GoesDown(s, retry, fail, total);
      LoweredState(MarkedState(s, ratio % 256, bad).(rate := if bad then QuickDown(s) else s.rate),
          s.rate).(timer := false)
  }

  /** The error rate of the present rate, and the worst quality if it is that bad. */
  function MarkedState(s: State, error: nat, bad: bool): (t: State)
    requires Wf(s)
    ensures Wf(t) && t.rate == s.rate && t.max == s.max && t.ofdmOnly == s.ofdmOnly
  {
    s.(quality := if bad then s.quality[s.rate := WORST] else s.quality, per := s.per[s.rate := error])
  }

  /** What the timer routine does to the history. */
  function LoweredState(s: State, was: nat): (t: State)
    requires Wf(s)
    ensures Wf(t) && t.rate == s.rate && t.max == s.max && t.ofdmOnly == s.ofdmOnly
  {
    if s.rate < was
    then s.(penalty := 0, stable := 0, lastAction := 2, quality := s.quality[s.rate := 0], per := s.per[s.rate := 0])
    else s.(lastAction := 0)
  }

  /** A test frame at the next rate up was repeated, or was lost. */
  function TestState(s: State, lost: bool): (t: State)
    requires Wf(s)
    ensures Wf(t)
  {
    var up := UpFrom(false, s.rate);
    s.(quality := s.quality[up := if lost then WORST else Min(s.quality[up] + 2, WORST)])
  }

  /** MlmeUpdateTxRates: the highest rate is the smaller of what both sides list, and the rate to begin with. */
  function UpdateState(s: State, e: Event): (t: State)
    requires Wf(s) && e.Update?
    ensures Ok(t) && t.timer == s.timer
  {
    var wanted := if e.noOfdm then Min(HighestOf(e.desire), RATE_11) else HighestOf(e.desire);
    var max := Min(wanted, HighestOf(e.supported));
    var switching := CountKnown(e.desire) > 1;
    s.(max := max, switching := switching, ofdmOnly := e.ofdmOnly,
       rate := FirstRate(e, max, switching))
  }

  function FirstRate(e: Event, max: nat, switching: bool): (r: nat)
    requires e.Update?
    ensures r <= max && (max >= RATE_6 ==> (r >= RATE_6 <==> !(switching && e.connected && e.dbm < -75)))
    ensures max < RATE_6 ==> r == max || max > RATE_11
  {
    Min(max, if !(switching && e.connected) then max else if e.dbm < -75 then RATE_11
             else if e.dbm < -70 || e.linkUp then RATE_24 else max)
  }

  /** On a link with adaptation on: at most 11 Mbps below -75 dBm, at most 24 below -70 or on a new link, else all. */
  lemma FirstRateSteps(e: Event, max: nat)
    requires e.Update? && max < RATES
    ensures FirstRate(e, max, false) == max && (!e.connected ==> FirstRate(e, max, true) == max)
    ensures e.connected && max > RATE_11 ==> (FirstRate(e, max, true) <= RATE_11 <==> e.dbm < -75)
    ensures e.connected && max > RATE_24 ==> (FirstRate(e, max, true) <= RATE_24 <==> e.dbm < -70 || e.linkUp)
    ensures FirstRate(e, max, true) in {max, RATE_11, RATE_24}
  {
  }

  /** The highest rate is the highest that both sides list and, on old hardware, not a new one. */
  lemma HighestForBoth(s: State, e: Event)
    requires Wf(s) && e.Update?
    ensures var m := UpdateState(s, e).max;
            && m <= HighestOf(e.desire) && m <= HighestOf(e.supported) && (e.noOfdm ==> m <= RATE_11)
            && (m == HighestOf(e.desire) || m == HighestOf(e.supported) || (e.noOfdm && m == RATE_11))
    ensures UpdateState(s, e).switching <==> CountKnown(e.desire) >= 2
  {
    hide HighestOf, CountKnown;
  }

  datatype Event =
    | Update(desire: seq<nat>, supported: seq<nat>, noOfdm: bool, ofdmOnly: bool, linkUp: bool, connected: bool,
        dbm: int)
    | Second(dbm: int, noRetry: nat, retry: nat, fail: nat)
    | Timer(connected: bool, noRetry: nat, retry: nat, fail: nat)
    | Test(lost: bool)

  /** The timer routine runs only when its timer does. */
  function Next(s: State, e: Event): (t: State)
    requires Wf(s)
    ensures Wf(t)
  {
    match e
    case Update(_, _, _, _, _, _, _) => UpdateState(s, e)
    case Second(dbm, noRetry, retry, fail) => SecondState(s, dbm, noRetry, retry, fail)
    case Timer(connected, noRetry, retry, fail) => if s.timer then TimerState(s, connected, noRetry, retry, fail) else s
    case Test(lost) => TestState(s, lost)
  }

  function From(s: State, events: seq<Event>): (t: State)
    requires Wf(s)
    ensures Wf(t)
  {
    if events == [] then s else Next(From(s, events[..|events| - 1]), events[|events| - 1])
  }

  function Initial(): (s: State)
    ensures Ok(s)
  {
    State(AllZero(), AllZero(), 0, 0, 0, 0, false, 0, false, false, false)
  }

  // ---- the rate and the highest rate, over all runs ----

  /** Where only the new rates are allowed but the highest rate is an old one, the rate is the highest one. */
  predicate Pinned(s: State) {
    s.ofdmOnly && s.max < RATE_6 ==> s.rate == s.max
  }

  /**
   The timer of a raised rate runs although the highest rate has become an old one and only the new ones are allowed.
   */
  predicate Exposed(s: State) {
    s.ofdmOnly && s.max < RATE_6 && s.timer
  }

  /** The timer routine finds the rate bad in such a state. */
  predicate Overshoots(s: State, e: Event)
    requires Wf(s)
  {
    && e.Timer? && Exposed(s) && e.connected && Total(e.noRetry, e.retry, e.fail) > 0
    && GoesDown(s, e.retry, e.fail, Total(e.noRetry, e.retry, e.fail))
  }

  /** Every step keeps the rate within the highest rate, but for that one. */
  lemma NextOkIff(s: State, e: Event)
    requires Ok(s) && Pinned(s)
    ensures Ok(Next(s, e)) <==> !Overshoots(s, e)
    ensures Ok(Next(s, e)) ==> Pinned(Next(s, e))
    ensures !Exposed(s) && !e.Update? ==> !Exposed(Next(s, e))
  {
    hide HighestOf, CountKnown;
    match e
    case Second(dbm, noRetry, retry, fail) => SecondPinned(s, dbm, noRetry, retry, fail);
    case _ => hide FloorRate, SafeFrom, UpFrom, DownFrom, RssiRate;
  }

  /** With the rate pinned, a second leaves it where it is. */
  lemma SecondPinned(s: State, dbm: int, noRetry: nat, retry: nat, fail: nat)
    requires Ok(s) && Pinned(s)
    ensures var t := SecondState(s, dbm, noRetry, retry, fail);
            && Ok(t) && Pinned(t) && t.max == s.max && t.ofdmOnly == s.ofdmOnly
            && (s.ofdmOnly && s.max < RATE_6 ==> t.timer == s.timer)
  {
    hide SafeFrom, Judged;
    if s.switching && Total(noRetry, retry, fail) > 15 {
      var v := JudgedState(s.(stable := s.stable + 1), ErrorRatio(retry, fail, Total(noRetry, retry, fail)));
      NextPinned(v, dbm);
    }
  }

  lemma NextPinned(s: State, dbm: int)
    requires Ok(s) && Pinned(s)
    ensures s.ofdmOnly && s.max < RATE_6 ==> NextRate(s, dbm) == s.rate
  {
    hide SafeFrom;
  }

  predicate NoUpdate(events: seq<Event>) {
    forall i :: 0 <= i < |events| ==> !events[i].Update?
  }

  lemma {:induction false} StaysUnexposed(s: State, events: seq<Event>)
    requires Ok(s) && Pinned(s) && !Exposed(s) && NoUpdate(events)
    ensures var t := From(s, events); Ok(t) && Pinned(t) && !Exposed(t)
    decreases |events|
  {
    hide Next, Wf, Pinned, Exposed;
    if events != [] {
      var n := |events| - 1;
      StaysUnexposed(s, events[..n]);
      NextOkIff(From(s, events[..n]), events[n]);
      NotExposed(From(s, events[..n]), events[n]);
    }
  }

  lemma NotExposed(s: State, e: Event)
    requires Wf(s) && !Exposed(s)
    ensures !Overshoots(s, e)
  {
  }

  /** The timer routine, on a link on which every frame is repeated. */
  const ALL_REPEATED := Timer(true, 0, 100, 0)

  lemma ExposedOvershoots(s: State)
    requires Ok(s) && Pinned(s) && Exposed(s)
    ensures var t := Next(s, ALL_REPEATED); t.rate == RATE_6 > t.max
  {
    assert Total(0, 100, 0) == 100 && ErrorRatio(100, 0, 100) == 100;
  }

  /**
   From any state, whatever comes short of another update, the rate stays within the highest rate if and only if no
   timer of a raised rate is running into a highest rate that is not allowed.
   */
  lemma WithinIff(s: State)
    requires Ok(s) && Pinned(s)
    ensures (forall events :: NoUpdate(events) ==> Ok(From(s, events))) <==> !Exposed(s)
  {
    hide Next, Wf, Pinned, Exposed, NoUpdate;
    if Exposed(s) {
      ExposedOvershoots(s);
      OneEvent(s, ALL_REPEATED);
      assert !Ok(From(s, [ALL_REPEATED])) by { BeyondMax(Next(s, ALL_REPEATED)); }
    } else {
      forall events | NoUpdate(events)
        ensures Ok(From(s, events))
      {
        StaysUnexposed(s, events);
      }
    }
  }

  lemma BeyondMax(s: State)
    requires s.rate > s.max
    ensures !Ok(s)
  {
  }

  lemma OneEvent(s: State, e: Event)
    requires Wf(s)
    ensures From(s, [e]) == Next(s, e) && (!e.Update? ==> NoUpdate([e]))
  {
    assert [e][..0] == [];
  }

  /** The update leaves a highest rate below the rates that are allowed. */
  predicate OldMaximum(s: State, e: Event)
    requires Wf(s)
  {
    e.Update? && UpdateState(s, e).ofdmOnly && UpdateState(s, e).max < RATE_6
  }

  /** No update does so while the timer of a raised rate runs. */
  predicate TimelyUpdates(events: seq<Event>) {
    forall i :: 0 <= i < |events| ==>
      !(OldMaximum(From(Initial(), events[..i]), events[i]) && From(Initial(), events[..i]).timer)
  }

  lemma TimelyPrefix(events: seq<Event>, n: nat)
    requires n <= |events| && TimelyUpdates(events)
    ensures TimelyUpdates(events[..n])
  {
    hide From, OldMaximum;
    forall i | 0 <= i < n
      ensures events[..n][i] == events[i] && events[..n][..i] == events[..i]
    {
    }
  }

  /** In every run with timely updates the rate never exceeds the highest rate. */
  lemma {:induction false} TimelyRuns(events: seq<Event>)
    requires TimelyUpdates(events)
    ensures var t := From(Initial(), events); Ok(t) && Pinned(t) && !Exposed(t)
    decreases |events|
  {
    hide Wf, Pinned, Exposed, Next;
    if events == [] {
      StartsOk();
    } else {
      var n := |events| - 1;
      TimelyPrefix(events, n);
      TimelyRuns(events[..n]);
      var s := From(Initial(), events[..n]);
      NextOkIff(s, events[n]);
      NotExposed(s, events[n]);
      if events[n].Update? {
        UpdateExposes(s, events[n]);
      }
    }
  }

  lemma StartsOk()
    ensures var t := Initial(); Ok(t) && Pinned(t) && !Exposed(t)
  {
  }

  lemma UpdateExposes(s: State, e: Event)
    requires Wf(s) && e.Update?
    ensures Exposed(Next(s, e)) <==> OldMaximum(s, e) && s.timer
  {
  }

  /** An update that is not timely can be followed by a rate above the highest one. */
  lemma UntimelyOvershoots(events: seq<Event>, e: Event)
    requires TimelyUpdates(events) && OldMaximum(From(Initial(), events), e) && From(Initial(), events).timer
    ensures var t := From(Initial(), events + [e] + [ALL_REPEATED]); t.rate > t.max
  {
    hide Wf, Pinned, Exposed, Next, OldMaximum;
    var s := From(Initial(), events);
    TimelyRuns(events);
    assert e.Update? by { IsUpdate(s, e); }
    UpdateExposes(s, e);
    NextOkIff(s, e);
    NotExposed(s, e);
    FromLast(events, e);
    ExposedOvershoots(Next(s, e));
    FromLast(events + [e], ALL_REPEATED);
  }

  lemma IsUpdate(s: State, e: Event)
    requires Wf(s) && OldMaximum(s, e)
    ensures e.Update?
  {
  }

  lemma FromLast(events: seq<Event>, e: Event)
    ensures From(Initial(), events + [e]) == Next(From(Initial(), events), e)
  {
    assert (events + [e])[..|events|] == events;
  }

  /**
   Six and twelve megabits, far away; a good second; then the one rate of eleven megabits, with the timer still
   running.
   */
  const RAISED := [Update([12, 24], [12, 24], false, true, true, true, -80), Second(-80, 100, 0, 0)]
  const ELEVEN := Update([22], [22], false, true, false, true, -80)

  lemma RaisedState()
    ensures var s := From(Initial(), RAISED); s.timer && s.rate == RATE_9 && s.max == RATE_12
  {
    hide Next, Initial;
    FromLast([], RAISED[0]);
    FromLast([RAISED[0]], RAISED[1]);
    assert [] + [RAISED[0]] == [RAISED[0]] && [RAISED[0]] + [RAISED[1]] == RAISED;
    AtStart();
    FarAway();
    GoodStart(Next(Initial(), RAISED[0]));
  }

  /** Far away the rate begins low. */
  lemma FarAway()
    ensures var s := Next(Initial(), RAISED[0]);
            s.rate == RATE_11 && s.max == RATE_12 && s.switching && s.ofdmOnly && s.quality == AllZero() && !s.noisy
                && s.lastAction == 0
            && s.penalty == 0
  {
    TwoRates();
    hide HighestOf, CountKnown;
  }

  /** A good second then raises it. */
  lemma GoodStart(s: State)
    requires Wf(s) && s.rate == RATE_11 && s.max == RATE_12 && s.switching && s.ofdmOnly && s.quality == AllZero()
             && !s.noisy
    requires s.lastAction == 0 && s.penalty == 0
    ensures var t := Next(s, RAISED[1]); t.timer && t.rate == RATE_9 && t.max == RATE_12
  {
    hide FloorRate, SafeFrom;
    assert Total(100, 0, 0) == 100 && ErrorRatio(0, 0, 100) == 0;
    assert GoodSecond(s, RAISED[1]);
    OneGoodSecond(s, RAISED[1]);
    assert Up(s) == RATE_9;
  }

  lemma TwoRates()
    ensures HighestOf([12, 24]) == RATE_12 && CountKnown([12, 24]) == 2 && HighestOf([22]) == RATE_11
  {
    assert [12, 24][..1] == [12] && [12][..0] == [] && [22][..0] == [];
  }

  /** A run of the driver that ends with the rate above the highest rate. */
  lemma Overshoot()
    ensures var s := From(Initial(), RAISED + [ELEVEN] + [ALL_REPEATED]); s.rate == RATE_6 && s.max == RATE_11
  {
    hide From, Next;
    RaisedState();
    var s := From(Initial(), RAISED);
    FromLast(RAISED, ELEVEN);
    FromLast(RAISED + [ELEVEN], ALL_REPEATED);
    ElevenState(s);
    ExposedOvershoots(Next(s, ELEVEN));
  }

  lemma ElevenState(s: State)
    requires Wf(s) && s.timer
    ensures var t := Next(s, ELEVEN);
            && Ok(t) && Pinned(t) && Exposed(t) && t.max == RATE_11
            && Next(t, ALL_REPEATED).max == t.max
  {
    TwoRates();
    hide HighestOf, CountKnown;
  }

  // ---- how soon the rate rises ----

  function Max(a: nat, b: nat): nat { if a < b then b else a }

  /** How many good seconds in a row it takes until the rate rises. */
  function Wait(s: State): nat
    requires Wf(s)
  {
    Max(1, Max(s.quality[s.rate], if s.quality[Up(s)] > 0 then s.quality[Up(s)] + s.penalty else 0))
  }

  /** Nothing but the qualities stands in the way: room above, no noise, and adaptation is on. */
  predicate CanRise(s: State) {
    Ok(s) && s.switching && s.rate < s.max && !s.noisy && s.lastAction != 2
  }

  /** A second with enough traffic and few enough errors at the present rate. */
  predicate GoodSecond(s: State, e: Event)
    requires Wf(s)
  {
    && e.Second? && Total(e.noRetry, e.retry, e.fail) > 15
    && GoodNews(s.rate, ErrorRatio(e.retry, e.fail, Total(e.noRetry, e.retry, e.fail)))
  }

  /** One good second: the rate rises if it was the last to wait for; otherwise there is one less to wait for. */
  lemma OneGoodSecond(s: State, e: Event)
    requires CanRise(s) && GoodSecond(s, e)
    ensures var t := Next(s, e);
            if Wait(s) == 1 then t.rate == Up(s) > s.rate
            else t.rate == s.rate && t.max == s.max && t.ofdmOnly == s.ofdmOnly && CanRise(t) && Wait(t) == Wait(s) - 1
  {
    hide FloorRate, SafeFrom, DownFrom, RssiRate, Judged, UpFrom, Total, ErrorRatio, GoodNews;
    var ratio := ErrorRatio(e.retry, e.fail, Total(e.noRetry, e.retry, e.fail));
    var r := s.(stable := s.stable + 1);
    GoodJudgement(r, ratio);
    var v := JudgedState(r, ratio);
    assert !Noise(v) && !Cleared(v, e.dbm) && !Bad(v);
  }

  lemma GoodJudgement(s: State, ratio: nat)
    requires Ok(s) && s.rate < s.max && GoodNews(s.rate, ratio)
    ensures var v := JudgedState(s, ratio);
            && Up(v) == Up(s) > s.rate && v.penalty == Less(s.penalty)
            && v.quality[s.rate] == Less(s.quality[s.rate])
            && v.quality[Up(s)] == if s.penalty > 0 then s.quality[Up(s)] else Less(s.quality[Up(s)])
  {
  }

  /** A second with enough traffic and too many errors, on a weak signal. */
  predicate BadSecond(s: State, e: Event)
    requires Wf(s)
  {
    && e.Second? && Total(e.noRetry, e.retry, e.fail) > 15 && e.dbm < -75
    && ErrorRatio(e.retry, e.fail, Total(e.noRetry, e.retry, e.fail)) >= RATE_DOWN_PER[s.rate]
  }

  /** One bad second is enough: the rate falls to the next one down, which starts with a clean record. */
  lemma OneBadSecond(s: State, e: Event)
    requires Ok(s) && s.switching && BadSecond(s, e) && s.lastAction != 2 && !s.noisy
    requires DownFrom(s.ofdmOnly, s.rate) < s.rate
    ensures var t := Next(s, e);
            && t.rate == DownFrom(s.ofdmOnly, s.rate) && t.quality[s.rate] == WORST
            && t.quality[t.rate] == 0 && t.per[t.rate] == 0 && t.lastAction == 2 && t.timer == s.timer
  {
    hide FloorRate, SafeFrom, DownFrom, RssiRate, UpFrom, Total, ErrorRatio;
    var ratio := ErrorRatio(e.retry, e.fail, Total(e.noRetry, e.retry, e.fail));
    FloorSteps(e.dbm, s.ofdmOnly, DownFrom(s.ofdmOnly, s.rate));
    var v := JudgedState(s.(stable := s.stable + 1), ratio);
    assert v.quality[s.rate] == WORST && !Noise(v) && !Cleared(v, e.dbm) && Bad(v);
  }

  /** The timer of a raised rate: with too many errors by then the rate goes down again, otherwise it stays. */
  lemma RaisedThenTimer(s: State, noRetry: nat, retry: nat, fail: nat)
    requires Ok(s) && s.timer && Total(noRetry, retry, fail) > 15 && s.quality[s.rate] < WORST
    ensures var t := Next(s, Timer(true, noRetry, retry, fail));
            var bad := ErrorRatio(retry, fail, Total(noRetry, retry, fail)) >= RATE_DOWN_PER[s.rate];
            && t.rate == (if bad then QuickDown(s) else s.rate) && !t.timer
            && (bad && t.rate < s.rate ==> t.quality[s.rate] == WORST && t.quality[t.rate] == 0 && t.lastAction == 2)
            && (!bad ==> t.quality == s.quality && t.lastAction == 0)
  {
    hide DownFrom, QuickDown, Total, ErrorRatio;
  }

  /** With fifteen frames or fewer in a second the signal alone decides, and what was learnt is forgotten. */
  lemma QuietSecond(s: State, e: Event)
    requires Ok(s) && s.switching && e.Second? && Total(e.noRetry, e.retry, e.fail) <= 15
    ensures var t := Next(s, e);
            && t.rate <= RssiRate(e.dbm, s.ofdmOnly) && t.rate <= s.max && t.max == s.max
            && (t.rate == RssiRate(e.dbm, s.ofdmOnly) || t.rate == s.max)
            && t.penalty == 0 && (forall r :: 0 <= r < RATES ==> t.per[r] == 0)
            && (forall r :: 0 <= r < RATES / 2 ==> t.quality[r] == 0)
  {
    hide RssiRate, Total;
  }

  /** Two repeated test frames, or one lost, give the next rate up the worst quality, and no other rate. */
  lemma TestsSpoil(s: State)
    requires Ok(s)
    ensures var up, lost := UpFrom(false, s.rate), From(s, [Test(true)]);
            lost.quality == s.quality[up := WORST] && lost.rate == s.rate
    ensures var up, twice := UpFrom(false, s.rate), From(s, [Test(false), Test(false)]);
            twice.quality == s.quality[up := WORST] && twice.rate == s.rate
    ensures var up, once := UpFrom(false, s.rate), From(s, [Test(false)]);
            s.quality[up] == 0 ==> once.quality == s.quality[up := 2]
  {
    hide UpFrom;
    OneEvent(s, Test(true));
    OneEvent(s, Test(false));
    assert [Test(false), Test(false)][..1] == [Test(false)];
  }

  /** All of the seconds are good ones at that rate. */
  predicate GoodSeconds(s: State, events: seq<Event>)
    requires Wf(s)
  {
    forall i :: 0 <= i < |events| ==> GoodSecond(s, events[i])
  }

  /** The rate stays for all but the last of the good seconds it takes, and rises to the next one up on the last. */
  lemma {:induction false} RisesAfter(s: State, events: seq<Event>)
    requires CanRise(s) && GoodSeconds(s, events) && |events| <= Wait(s)
    ensures var t := From(s, events);
            if |events| < Wait(s) then t.rate == s.rate && t.max == s.max && t.ofdmOnly == s.ofdmOnly && CanRise(t)
                && Wait(t) == Wait(s) - |events|
            else t.rate == Up(s) > s.rate
    decreases |events|
  {
    hide Next, Wait, Total, ErrorRatio;
    WaitPositive(s);
    if events != [] {
      var n := |events| - 1;
      RisesAfter(s, events[..n]);
      var t := From(s, events[..n]);
      assert GoodSecond(s, events[n]) && GoodSecond(t, events[n]);
      OneGoodSecond(t, events[n]);
    }
  }

  lemma WaitPositive(s: State)
    requires Wf(s)
    ensures Wait(s) >= 1
  {
  }

  // ---- the driver's counters ----

  class Drs {
    const txQuality: array<nat>    // 16-bit entries, 0 is best
    const per: array<nat>          // 8-bit entries
    var txRate: nat
    var maxTxRate: nat
    var upPenalty: nat
    var stableTime: nat
    var noisy: bool
    var lastAction: nat
    var timerRunning: bool
    var switching: bool
    var ofdmOnly: bool

    ghost function View(): State
      reads this, txQuality, per
    {
      State(txQuality[..], per[..], txRate, maxTxRate, upPenalty, stableTime, noisy, lastAction, timerRunning,
          switching, ofdmOnly)
    }

    ghost predicate Valid()
      reads this, txQuality, per
    {
      txQuality != per && Wf(View())
    }

    constructor ()
      ensures Valid() && fresh(txQuality) && fresh(per) && View() == Initial()
    {
      txQuality, per := new nat[RATES](_ => 0), new nat[RATES](_ => 0);
      txRate, maxTxRate, upPenalty, stableTime, noisy, lastAction := 0, 0, 0, 0, false, 0;
      timerRunning, switching, ofdmOnly := false, false, false;
      new;
      assert View() == Initial();
    }

    /** Twelve bytes of each array are zeroed: all of PER, but half of the qualities. */
    method ZeroHistory()
      requires txQuality.Length == per.Length == RATES && txQuality != per
      modifies txQuality, per
      ensures txQuality[..] == HalfZeroed(old(txQuality[..])) && per[..] == AllZero()
    {
      for i := 0 to RATES
        invariant forall k :: 0 <= k < RATES ==> txQuality[k] == if 2 * k + 1 < i then 0 else old(txQuality[k])
        invariant forall k :: 0 <= k < i ==> per[k] == 0
      {
        if i % 2 == 1 {
          txQuality[i / 2] := 0;
        }
        per[i] := 0;
      }
    }

    /** MlmeUpdateTxRates, with the rates at which acknowledgements are to be expected. */
    method UpdateTxRates(e: Event) returns (ackRates: seq<nat>)
      requires Valid() && e.Update?
      modifies this`txRate, this`maxTxRate, this`switching, this`ofdmOnly
      ensures Valid() && View() == Next(old(View()), e) && txRate <= maxTxRate
      ensures |ackRates| == RATES && forall r :: 0 <= r < RATES ==> AckRate(BasicRates(e.supported), r, ackRates[r])
      ensures maxTxRate >= RATE_6 ==> (txRate >= RATE_6 <==> !(switching && e.connected && e.dbm < -75))
    {
      hide AckRate, BasicRates, HighestOf, CountKnown, Wf, FirstRate;
      ghost var s := View();
      var max, adapts, rate, ack := FindRates(e);
      maxTxRate, switching, ofdmOnly, txRate := max, adapts, e.ofdmOnly, rate;
      ackRates := ack;
      assert View() == UpdateState(s, e);
      FirstRateLaws(e, max, adapts);
    }

    static method FindRates(e: Event) returns (max: nat, adapts: bool, rate: nat, ackRates: seq<nat>)
      requires e.Update?
      ensures max == Min(if e.noOfdm then Min(HighestOf(e.desire), RATE_11) else HighestOf(e.desire),
                         HighestOf(e.supported))
      ensures adapts <==> CountKnown(e.desire) > 1
      ensures rate == FirstRate(e, max, adapts)
      ensures |ackRates| == RATES && forall r :: 0 <= r < RATES ==> AckRate(BasicRates(e.supported), r, ackRates[r])
    {
      hide AckRate, BasicRates, Highest, HighestOf, CountKnown, FirstRate;
      var wanted := MaxRate(e.desire);
      if e.noOfdm && wanted > RATE_11 {
        wanted := RATE_11;
      }
      var num := CountDesired(e.desire);
      adapts := num > 1;
      var offered := MaxRate(e.supported);
      var bitmap := BasicBitmap(e.supported);
      ackRates := ExpectedAckRates(bitmap);
      max := if offered < wanted then offered else wanted;
      rate := ChooseFirst(e, max, adapts);
    }

    /** The rate to begin with: slow when far away, and never above the highest. */
    static method ChooseFirst(e: Event, max: nat, switching: bool) returns (rate: nat)
      requires e.Update?
      ensures rate == FirstRate(e, max, switching)
    {
      if switching && e.connected {
        rate := if e.linkUp then RATE_24 else max;
        if e.dbm < -75 {
          rate := RATE_11;
        } else if e.dbm < -70 {
          rate := RATE_24;
        }
        if rate > max {
          rate := max;
        }
      } else {
        rate := max;
      }
    }

    /** The qualities of the present rate and of the next one up, from the share of errors. */
    method Judge(ratio: nat, up: nat)
      requires Valid() && up == Up(View())
      modifies txQuality, per, this`upPenalty
      ensures Valid() && View() == JudgedState(old(View()), ratio)
    {
      hide UpFrom;
      if ratio >= RATE_DOWN_PER[txRate] {
        txQuality[txRate] := WORST;
      } else if ratio <= RATE_UP_PER[txRate] {
        if txQuality[txRate] > 0 {
          txQuality[txRate] := txQuality[txRate] - 1;
        }
        if upPenalty > 0 {
          upPenalty := upPenalty - 1;
        } else if txQuality[up] > 0 {
          txQuality[up] := txQuality[up] - 1;
        }
      }
      per[txRate] := ratio % 256;
      assert txQuality[..] == Judged(old(txQuality[..]), txRate, up, ratio, old(upPenalty));
    }

    /** The highest rate that the signal is safe for. */
    static method JumpUpRate(dbm: int) returns (jump: nat)
      ensures jump == SafeFrom(dbm, RATE_54)
    {
      jump := RATE_54;
      while jump > RATE_1
        invariant jump < RATES && SafeFrom(dbm, jump) == SafeFrom(dbm, RATE_54)
      {
        if dbm > RSSI_SAFE_LEVEL[jump] {
          break;
        }
        jump := jump - 1;
      }
    }

    /** The body of the once-only loop: the rate for the next second. */
    method Tune(dbm: int, ratio: nat)
      requires Valid()
      modifies txQuality, per, this`txRate, this`upPenalty, this`noisy
      ensures Valid() && View() == TunedState(old(View()), dbm, ratio) && txRate <= maxTxRate
    {
      hide FloorRate, SafeFrom, JudgedState, DownFrom, UpFrom, Beyond, Wf, NextRate, Noise;
      ghost var s := View();
      Sizes(s);
      var up, down := Min(UpFrom(ofdmOnly, txRate), maxTxRate), DownFrom(ofdmOnly, txRate);
      Judge(ratio, up);
      JudgedSame(s, ratio);
      Decide(up, down, dbm);
      TunedIs(s, dbm, ratio);
    }

    /** The rate for the next second, once the last one has been judged. */
    method Decide(up: nat, down: nat, dbm: int)
      requires Valid() && up == Up(View()) && down == DownFrom(ofdmOnly, txRate)
      modifies this`txRate, this`noisy
      ensures var v := old(View());
              View() == v.(rate := NextRate(v, dbm), noisy := Noise(v) || (v.noisy && v.per[v.rate] > 12))
    {
      hide FloorRate, SafeFrom, DownFrom, UpFrom, Beyond, Wf, NextRate, Noise;
      Sizes(View());
      Decided(View(), up, dbm);
      var rate, noise := Pick(txRate, maxTxRate, up, down, txQuality[txRate], txQuality[up], per[txRate], per[up],
                              lastAction, noisy, ofdmOnly, dbm);
      txRate, noisy := rate, noise;
    }

    static method Pick(rate: nat, max: nat, up: nat, down: nat, quality: nat, qualityUp: nat, error: nat, errorUp: nat,
                       lastAction: nat, noisy: bool, ofdmOnly: bool, dbm: int)
      returns (r: nat, noise: bool)
      requires down < RATES
      ensures var starts := up != rate && lastAction == 2 && error < 75 && (error > 20 || noisy) && error + 5 > errorUp;
              && noise == (starts || (noisy && error > 12))
              && r == if starts then Min(Beyond(up), max)
                      else if noisy && error <= 12 && Min(SafeFrom(dbm, RATE_54), max) > rate
                          then Min(SafeFrom(dbm, RATE_54), max)
                      else Min(if quality >= WORST && rate != down then FloorRate(dbm, ofdmOnly, down)
                               else if quality <= 0 && qualityUp <= 0 && rate != up then up else rate, max)
    {
      hide FloorRate, SafeFrom, Beyond;
      noise, r := noisy, rate;
      if up != rate && lastAction == 2 && error < 75 && (error > 20 || noisy) && error + 5 > errorUp {
        return Min(Beyond(up), max), true;
      }
      if noisy && error <= 12 {
        noise := false;
        var jump := JumpUpRate(dbm);
        jump := Min(jump, max);
        if jump > rate {
          r := jump;
          return;
        }
      }
      if quality >= WORST && rate != down {
        r := FloorRate(dbm, ofdmOnly, down);
      } else if quality <= 0 && qualityUp <= 0 && rate != up {
        r := up;
      }
      if r > max {
        r := max;
      }
    }

    method AfterChange(was: nat)
      requires Valid()
      modifies txQuality, per, this`stableTime, this`upPenalty, this`lastAction, this`timerRunning
      ensures Valid() && View() == ChangedState(old(View()), was)
    {
      if txRate > was {
        stableTime, upPenalty, lastAction := 0, 0, 1;
        ZeroHistory();
        if !timerRunning {
          timerRunning := true;
        }
      } else if txRate < was {
        stableTime, upPenalty, lastAction := 0, 0, 2;
        txQuality[txRate] := 0;
        per[txRate] := 0;
      } else {
        lastAction := 0;
      }
    }

    /** MlmeDynamicTxRateSwitching. */
    method DynamicSwitch(dbm: int, noRetry: nat, retry: nat, fail: nat)
      requires Valid()
      modifies this, txQuality, per
      ensures Valid() && View() == Next(old(View()), Second(dbm, noRetry, retry, fail))
      ensures old(txRate) <= maxTxRate ==> txRate <= maxTxRate
    {
      hide JudgedState, NextRate, RssiRate, ErrorRatio, TunedState, ChangedState;
      var total := Total(noRetry, retry, fail);
      if !switching {
        return;
      }
      if total <= 15 {
        upPenalty := 0;
        ZeroHistory();
        txRate := Min(RssiRate(dbm, ofdmOnly), maxTxRate);
        return;
      }
      var was := txRate;
      stableTime := stableTime + 1;
      Tune(dbm, ErrorRatio(retry, fail, total));
      AfterChange(was);
    }

    method Mark(error: nat, bad: bool)
      requires Valid()
      modifies txQuality, per
      ensures Valid() && View() == MarkedState(old(View()), error, bad)
    {
      if bad {
        txQuality[txRate] := WORST;
      }
      per[txRate] := error;
    }

    method Lower(was: nat)
      requires Valid()
      modifies txQuality, per, this`stableTime, this`upPenalty, this`lastAction
      ensures Valid() && View() == LoweredState(old(View()), was)
    {
      if txRate < was {
        upPenalty, stableTime, lastAction := 0, 0, 2;
        txQuality[txRate] := 0;
        per[txRate] := 0;
      } else {
        lastAction := 0;
      }
    }

    /**
     StaQuickResponeForRateUpExec. The rate it goes down to is not checked against the highest rate: with only the
     new rates allowed and a highest rate below them, it goes up to 6 Mbps.
     */
    method QuickResponse(connected: bool, noRetry: nat, retry: nat, fail: nat)
      requires Valid() && timerRunning
      modifies this, txQuality, per
      ensures Valid() && View() == Next(old(View()), Timer(connected, noRetry, retry, fail)) && !timerRunning
      ensures !ofdmOnly || old(txRate) >= RATE_6 ==> txRate <= old(txRate)
    {
      hide ErrorRatio, DownFrom, Wf, Total, MarkedState, LoweredState, QuickDown, GoesDown, TimerState;
      ghost var s := View();
      Sizes(s);
      TimerIs(s, connected, noRetry, retry, fail);
      var total := Total(noRetry, retry, fail);
      if connected && total > 0 {
        var down := if !ofdmOnly && maxTxRate < RATE_FIRST_OFDM_RATE then PHY11B_DOWN[txRate]
            else DownFrom(ofdmOnly, txRate);
        var ratio := if total > 15 then ErrorRatio(retry, fail, total) else 0;
        var bad := txQuality[txRate] >= WORST || (total > 15 && ratio >= RATE_DOWN_PER[txRate]);
        Apply(ratio % 256, bad, down);
      }
      timerRunning := false;
    }

    method Apply(error: nat, bad: bool, down: nat)
      requires Valid() && down == QuickDown(View())
      modifies txQuality, per, this`txRate, this`stableTime, this`upPenalty, this`lastAction
      ensures var s := old(View());
              Wf(MarkedState(s, error, bad).(rate := if bad then QuickDown(s) else s.rate))
              && View() == LoweredState(MarkedState(s, error, bad).(rate := if bad then QuickDown(s) else s.rate),
                  s.rate)
    {
      hide Wf, MarkedState, LoweredState, QuickDown;
      ghost var s := View();
      var was := txRate;
      Mark(error, bad);
      txRate := if bad then down else was;
      MovedWf(MarkedState(s, error, bad), s, bad);
      Lower(was);
    }

    /** A test frame at the next rate up was repeated, or was lost. */
    method TestFrame(lost: bool)
      requires Valid()
      modifies txQuality
      ensures Valid() && View() == Next(old(View()), Test(lost))
      ensures forall r :: 0 <= r < RATES && r != PHY11BG_UP[txRate] ==> txQuality[r] == old(txQuality[r])
      ensures old(txQuality[PHY11BG_UP[txRate]]) <= txQuality[PHY11BG_UP[txRate]] <= WORST
      ensures txQuality[PHY11BG_UP[txRate]] == WORST <==> lost || old(txQuality[PHY11BG_UP[txRate]]) > 0
    {
      Tables(txRate);
      var up := PHY11BG_UP[txRate];
      if lost {
        txQuality[up] := WORST;
      } else {
        txQuality[up] := Min(txQuality[up] + 2, WORST);
      }
    }
  }

  lemma MovedWf(t: State, s: State, bad: bool)
    requires Wf(s) && Wf(t) && t.rate == s.rate && t.max == s.max && t.ofdmOnly == s.ofdmOnly
    ensures Wf(t.(rate := if bad then QuickDown(s) else s.rate))
  {
  }

  /** The timer routine, with what it goes by spelt out. */
  lemma TimerIs(s: State, connected: bool, noRetry: nat, retry: nat, fail: nat)
    requires Wf(s)
    ensures var total := Total(noRetry, retry, fail);
            var ratio := if total > 15 then ErrorRatio(retry, fail, total) else 0;
            var bad := s.quality[s.rate] >= WORST || (total > 15 && ratio >= RATE_DOWN_PER[s.rate]);
            var t := TimerState(s, connected, noRetry, retry, fail);
            && Wf(t)
            && QuickDown(s) == (if !s.ofdmOnly && s.max < RATE_FIRST_OFDM_RATE then PHY11B_DOWN[s.rate]
                else DownFrom(s.ofdmOnly, s.rate))
            && Wf(MarkedState(s, ratio % 256, bad).(rate := if bad then QuickDown(s) else s.rate))
            && t == if !(connected && total > 0) then s.(timer := false)
                    else LoweredState(MarkedState(s, ratio % 256, bad).(rate := if bad then QuickDown(s) else s.rate),
                        s.rate).(timer := false)
    ensures !s.ofdmOnly || s.rate >= RATE_6 ==> TimerState(s, connected, noRetry, retry, fail).rate <= s.rate
  {
    hide ErrorRatio, Total;
    MovedWf(s, s, true);
  }

  lemma TunedIs(s: State, dbm: int, ratio: nat)
    requires Wf(s)
    ensures var v := JudgedState(s, ratio);
            TunedState(s, dbm, ratio)
            == v.(rate := NextRate(v, dbm), noisy := Noise(v) || (v.noisy && v.per[v.rate] > 12))
    ensures Ok(TunedState(s, dbm, ratio))
  {
  }

  lemma FirstRateLaws(e: Event, max: nat, switching: bool)
    requires e.Update?
    ensures var r := FirstRate(e, max, switching);
            r <= max && (max >= RATE_6 ==> (r >= RATE_6 <==> !(switching && e.connected && e.dbm < -75)))
  {
  }

  lemma Sizes(s: State)
    requires Wf(s)
    ensures |s.quality| == |s.per| == RATES && s.rate < RATES && s.max < RATES
            && (!s.ofdmOnly && s.max < RATE_6 ==> s.rate < RATE_6)
    ensures s.quality[s.rate] <= WORST
  {
  }

  /** The decision of NextRate, in the order in which the source comes to it. */
  lemma Decided(v: State, up: nat, dbm: int)
    requires Wf(v) && up == Up(v)
    ensures Noise(v) <==> up != v.rate && v.lastAction == 2 && v.per[v.rate] < 75 && (v.per[v.rate] > 20 || v.noisy)
                          && v.per[v.rate] + 5 > v.per[up]
    ensures NextRate(v, dbm)
         == if Noise(v) then Min(Beyond(up), v.max)
            else if v.noisy && v.per[v.rate] <= 12 && Min(SafeFrom(dbm, RATE_54), v.max) > v.rate
                then Min(SafeFrom(dbm, RATE_54), v.max)
            else Min(if v.quality[v.rate] >= WORST && v.rate != DownFrom(v.ofdmOnly, v.rate)
                     then FloorRate(dbm, v.ofdmOnly, DownFrom(v.ofdmOnly, v.rate))
                     else if v.quality[v.rate] <= 0 && v.quality[up] <= 0 && v.rate != up then up else v.rate, v.max)
  {
  }

  lemma JudgedSame(s: State, ratio: nat)
    requires Wf(s)
    ensures var v := JudgedState(s, ratio);
            Wf(v) && v.rate == s.rate && v.max == s.max && v.noisy == s.noisy && v.lastAction == s.lastAction
                && v.ofdmOnly == s.ofdmOnly
  {
  }

  /** The driver follows the runs above, event by event: the rate and the highest rate after each. */
  method Run(events: seq<Event>) returns (rates: seq<(nat, nat)>)
    ensures |rates| == |events|
    ensures forall i :: 0 <= i < |rates| ==> var s := From(Initial(), events[..i + 1]); rates[i] == (s.rate, s.max)
    ensures TimelyUpdates(events) ==> forall i :: 0 <= i < |rates| ==> rates[i].0 <= rates[i].1 <= RATE_54
  {
    hide From, Next, Wf, Initial, TimelyUpdates;
    var drs := new Drs();
    rates := [];
    AtStart();
    for i := 0 to |events|
      invariant drs.Valid() && fresh(drs) && fresh(drs.txQuality) && fresh(drs.per)
      invariant drs.View() == From(Initial(), events[..i]) && |rates| == i
      invariant forall k :: 0 <= k < i ==> var s := From(Initial(), events[..k + 1]); rates[k] == (s.rate, s.max)
      invariant TimelyUpdates(events) ==> forall k :: 0 <= k < i ==> rates[k].0 <= rates[k].1 <= RATE_54
    {
      assert events[..i + 1] == events[..i] + [events[i]];
      FromLast(events[..i], events[i]);
      Do(drs, events[i]);
      if TimelyUpdates(events) {
        TimelyPrefix(events, i + 1);
        TimelyRuns(events[..i + 1]);
        WithinMax(drs.View());
      }
      rates := rates + [(drs.txRate, drs.maxTxRate)];
    }
  }

  lemma AtStart()
    ensures From(Initial(), []) == Initial()
  {
  }

  lemma WithinMax(s: State)
    requires Ok(s)
    ensures s.rate <= s.max <= RATE_54
  {
  }

  method Do(drs: Drs, e: Event)
    requires drs.Valid()
    modifies drs, drs.txQuality, drs.per
    ensures drs.Valid() && drs.View() == Next(old(drs.View()), e)
  {
    hide Wf;
    match e
    case Update(_, _, _, _, _, _, _) =>
      hide Next;
      var ack := drs.UpdateTxRates(e);
    case Second(dbm, noRetry, retry, fail) =>
      hide Next;
      drs.DynamicSwitch(dbm, noRetry, retry, fail);
    case Timer(connected, noRetry, retry, fail) =>
      if drs.timerRunning {
        hide Next;
        drs.QuickResponse(connected, noRetry, retry, fail);
      }
    case Test(lost) =>
      hide Next;
      drs.TestFrame(lost);
  }
}
