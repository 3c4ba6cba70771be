/**
 Message ID allocation with the reuse interval of section 4.4 of RFC 7252, and unbiased
 retransmission jitter by bounded rejection sampling.
 */
module Identity {
  import opened Common

  const MIDS: nat := 0x1_0000
  const U32_MAX: nat := 0xFFFF_FFFF
  const EXCHANGE_LIFETIME_MS: nat := 247_000
  const ACK_RANDOM_SPAN_MS: nat := 1000
  const TRIES: nat := 8

  type U32 = n: nat | n <= 0xFFFF_FFFF

  datatype IdentityError = RandomnessUnavailable | TokenExhausted | MessageIdExhausted

  /** What the entropy source answers to the next eight requests; `None` is a failed fill. */
  type Draws = d: seq<Option<U32>> | |d| == TRIES witness seq(TRIES, _ => None)

  // Jitter.

  /** The rejection limit for a span of `width` values. */
  function Limit(width: nat): nat
    requires 0 < width <= U32_MAX
  {
    U32_MAX - U32_MAX % width
  }

  function Accepted(width: nat, residue: nat): set<nat>
    requires 0 < width <= U32_MAX
  {
    set v: nat | v < Limit(width) && v % width == residue
  }

  lemma {:induction false} ResidueCount(width: nat, residue: nat, blocks: nat)
    requires residue < width
    ensures |set v: nat | v < blocks * width && v % width == residue| == blocks
    decreases blocks
  {
    var all := set v: nat | v < blocks * width && v % width == residue;
    if blocks == 0 {
      assert all == {};
    } else {
      var less := set v: nat | v < (blocks - 1) * width && v % width == residue;
      var last := (blocks - 1) * width + residue;
      ResidueCount(width, residue, blocks - 1);
      LastBlock(width, residue, blocks);
      assert all == less + {last};
    }
  }

  /** The last block of `width` values holds exactly one value with the residue. */
  lemma LastBlock(width: nat, residue: nat, blocks: nat)
    requires residue < width && blocks > 0
    ensures blocks * width == (blocks - 1) * width + width
    ensures forall v: nat :: (blocks - 1) * width <= v < blocks * width ==>
              (v % width == residue <==> v == (blocks - 1) * width + residue)
  {
    forall v: nat | (blocks - 1) * width <= v < blocks * width
      ensures v % width == v - (blocks - 1) * width
    {
      Remainder(v, blocks - 1, width);
    }
  }

  lemma Remainder(v: nat, q: nat, width: nat)
    requires width > 0 && q * width <= v < q * width + width
    ensures v % width == v - q * width && v / width == q
  {
    var p := v / width;
    assert v == p * width + v % width;
    if p < q {
      assert (p + 1) * width <= q * width by { Scale(p + 1, q, width); }
    } else if p > q {
      assert (q + 1) * width <= p * width by { Scale(q + 1, p, width); }
    }
  }

  lemma Scale(a: nat, b: nat, width: nat)
    requires a <= b
    ensures a * width <= b * width
  {
  }

  /** Unbiased: the limit is a multiple of the width, less than one width is discarded below the
      largest draw, and every residue has the same number of accepted draws. */
  lemma JitterUnbiased(width: nat, residue: nat)
    requires 0 < width <= U32_MAX && residue < width
    ensures Limit(width) % width == 0
    ensures Limit(width) <= U32_MAX < Limit(width) + width
    ensures |Accepted(width, residue)| == Limit(width) / width
  {
    var q := U32_MAX / width;
    assert Limit(width) == q * width;
    Remainder(q * width, q, width);
    ResidueCount(width, residue, q);
  }

  const WIDTH: nat := ACK_RANDOM_SPAN_MS + 1

  /** The outcome of drawing from the `k`-th answer on. */
  function Sample(draws: Draws, k: nat): Result<nat, IdentityError>
    requires k <= TRIES
    decreases TRIES - k
  {
    if k == TRIES || draws[k].None? then Err(RandomnessUnavailable)
    else if draws[k].value < Limit(WIDTH) then Ok(draws[k].value % WIDTH)
    else Sample(draws, k + 1)
  }

  /** Answer `k` decides: all before it were drawn and rejected. */
  predicate Decides(draws: Draws, k: nat) {
    && k < TRIES
    && (forall i :: 0 <= i < k ==> draws[i].Some? && draws[i].value >= Limit(WIDTH))
    && (draws[k].None? || draws[k].value < Limit(WIDTH))
  }

  /** `sample_jitter`: at most eight draws, and the first usable one decides. */
  method SampleJitter(test: bool, draws: Draws) returns (r: Result<nat, IdentityError>, used: nat)
    ensures used <= TRIES
    ensures test ==> r == Ok(0) && used == 0
    ensures !test ==> r == Sample(draws, 0)
    ensures !test && r.Ok? ==> used > 0 && Decides(draws, used - 1) && draws[used - 1].Some?
                               && r.value == draws[used - 1].value % WIDTH && r.value <= ACK_RANDOM_SPAN_MS
    ensures !test && r.Err? ==> r.error == RandomnessUnavailable
                                && (used == TRIES || (used > 0 && Decides(draws, used - 1) && draws[used - 1].None?))
  {
    used := 0;
    if test { return Ok(0), 0; }
    while used < TRIES
      invariant used <= TRIES && Sample(draws, 0) == Sample(draws, used)
      invariant forall i :: 0 <= i < used ==> draws[i].Some? && draws[i].value >= Limit(WIDTH)
    {
      used := used + 1;
      if draws[used - 1].None? { return Err(RandomnessUnavailable), used; }
      if draws[used - 1].value < Limit(WIDTH) { return Ok(draws[used - 1].value % WIDTH), used; }
    }
    return Err(RandomnessUnavailable), used;
  }

  // Message IDs.

  datatype Ids = Ids(test: bool, nextMid: nat, issued: nat, lastMs: nat, jitter: nat) {
    predicate Valid() {
      nextMid < MIDS && issued <= MIDS && lastMs <= U64_MAX && jitter <= ACK_RANDOM_SPAN_MS
    }
  }

  /** One allocation attempt: the caller's clock, its entropy, and whether any transmit slot still
      holds a pending confirmable. */
  datatype Call = Call(now: nat, draws: Draws, pending: bool)

  /** The allocator is at the end of a 65536-issue epoch. */
  predicate AtBoundary(s: Ids) {
    s.issued == MIDS
  }

  function Outcome(s: Ids, c: Call): Result<nat, IdentityError> {
    if AtBoundary(s) && (c.pending || SatSub(c.now, s.lastMs) < EXCHANGE_LIFETIME_MS) then Err(MessageIdExhausted)
    else if s.test then Ok(s.nextMid)
    else if Sample(c.draws, 0).Err? then Err(RandomnessUnavailable)
    else Ok(s.nextMid)
  }

  function Step(s: Ids, c: Call): Ids {
    if Outcome(s, c).Err? then s
    else Ids(s.test, (s.nextMid + 1) % MIDS, (if AtBoundary(s) then 0 else s.issued) + 1, Max(s.lastMs, c.now),
             if s.test then 0 else if Sample(c.draws, 0).Ok? then Sample(c.draws, 0).value else 0)
  }

  class AppIds {
    const test: bool
    var nextMid: nat
    var issued: nat
    var lastMs: nat
    var jitter: nat

    ghost function State(): Ids
      reads this
    {
      Ids(test, nextMid, issued, lastMs, jitter)
    }

    constructor (isTest: bool, firstMid: nat)
      requires firstMid < MIDS
      ensures State() == Ids(isTest, firstMid, 0, 0, 0) && State().Valid()
    {
      test, nextMid, issued, lastMs, jitter := isTest, firstMid, 0, 0, 0;
    }

    /** `next_for`, with the scan of the transmit slots given as `pending`. */
    method NextFor(c: Call) returns (r: Result<nat, IdentityError>)
      requires State().Valid() && c.now <= U64_MAX
      modifies this
      ensures State().Valid()
      ensures State() == Step(old(State()), c) && r == Outcome(old(State()), c)
      ensures r.Err? ==> State() == old(State())
    {
      if issued == MIDS && c.pending { return Err(MessageIdExhausted); }
      r := Next(c);
    }

    /** `next`, which looks at the clock and the entropy but not at the transmit slots. */
    method Next(c: Call) returns (r: Result<nat, IdentityError>)
      requires State().Valid() && c.now <= U64_MAX
      modifies this
      ensures State().Valid()
      ensures var blind := c.(pending := false);
              State() == Step(old(State()), blind) && r == Outcome(old(State()), blind)
      ensures r.Err? ==> State() == old(State())
    {
      if issued == MIDS && SatSub(c.now, lastMs) < EXCHANGE_LIFETIME_MS { return Err(MessageIdExhausted); }
      var sampled, _ := SampleJitter(test, c.draws);
      if sampled.Err? { return Err(sampled.error); }
      if issued == MIDS { issued := 0; }
      r := Ok(nextMid);
      nextMid := (nextMid + 1) % MIDS;
      issued := issued + 1;
      lastMs := Max(lastMs, c.now);
      jitter := sampled.value;
    }
  }

  // What an issued ID leaves for its retransmissions.

  lemma FirstDecides(draws: Draws, k: nat)
    requires Decides(draws, k)
    ensures forall n: nat :: Decides(draws, n) ==> n == k
  {
  }

  lemma {:induction false} SampleDecides(draws: Draws, k: nat)
    requires k <= TRIES && forall i :: 0 <= i < k ==> draws[i].Some? && draws[i].value >= Limit(WIDTH)
    ensures Sample(draws, k).Ok? <==> exists n: nat :: Decides(draws, n) && draws[n].Some?
    ensures forall n: nat :: Decides(draws, n) && draws[n].Some? ==> Sample(draws, k) == Ok(draws[n].value % WIDTH)
    decreases TRIES - k
  {
    if k < TRIES {
      if draws[k].Some? && draws[k].value >= Limit(WIDTH) {
        SampleDecides(draws, k + 1);
      } else {
        assert Decides(draws, k);
        FirstDecides(draws, k);
      }
    }
  }

  /** Outside test mode an ID is issued, off the end of an epoch, exactly when one of the eight draws is
      below the limit and every one before it was answered; the first such draw, modulo 1001, is the jitter
      left behind, whatever the allocator held before. In test mode it is 0. */
  lemma JitterLeft(s: Ids, c: Call)
    ensures s.test && Outcome(s, c).Ok? ==> Step(s, c).jitter == 0
    ensures !s.test && !AtBoundary(s) ==> (Outcome(s, c).Ok? <==> exists n: nat :: Decides(c.draws, n) && c.draws[n].Some?)
    ensures !s.test && Outcome(s, c).Ok? ==>
              exists n: nat :: Decides(c.draws, n) && c.draws[n].Some? && Step(s, c).jitter == c.draws[n].value % 1001
  {
    SampleDecides(c.draws, 0);
  }

  /** Exactly when an attempt fails: at the end of an epoch, while a confirmable is pending or less than 247
      seconds after the last issue, for want of IDs; else, outside test mode, if no draw was usable. */
  lemma FailsIff(s: Ids, c: Call)
    ensures Outcome(s, c) == Err(MessageIdExhausted) <==> s.issued == 65_536 && (c.pending || c.now < s.lastMs + 247_000)
    ensures Outcome(s, c) == Err(RandomnessUnavailable) <==>
              && !(s.issued == 65_536 && (c.pending || c.now < s.lastMs + 247_000))
              && !s.test && forall n: nat :: Decides(c.draws, n) ==> c.draws[n].None?
    ensures Outcome(s, c).Ok? ==> Outcome(s, c).value == s.nextMid
    ensures Outcome(s, c) != Err(TokenExhausted) && |c.draws| == 8
  {
    SampleDecides(c.draws, 0);
  }

  /** The first draws that are accepted and leave this jitter. */
  function Leaving(s: Ids, c: Call, jitter: nat): set<nat> {
    set v: nat | v < Limit(WIDTH) && Step(s, c.(draws := c.draws[0 := Some(v)])).jitter == jitter
  }

  /** Every jitter from 0 to 1000 is left by equally many of them: the timeout is uniform. */
  lemma JitterUniform(s: Ids, c: Call, jitter: nat)
    requires !s.test && !AtBoundary(s) && jitter <= 1000
    ensures |Leaving(s, c, jitter)| == Limit(WIDTH) / 1001 == U32_MAX / 1001
  {
    JitterUnbiased(WIDTH, jitter);
    assert Leaving(s, c, jitter) == Accepted(WIDTH, jitter);
  }

  // Runs.

  function Run(s: Ids, calls: seq<Call>): Ids
    decreases |calls|
  {
    if calls == [] then s else Step(Run(s, calls[..|calls| - 1]), calls[|calls| - 1])
  }

  /** The ID issued by call `i`, if it succeeded. */
  function Issued(s: Ids, calls: seq<Call>, i: nat): Option<nat>
    requires i < |calls|
  {
    match Outcome(Run(s, calls[..i]), calls[i])
    case Ok(mid) => Some(mid)
    case Err(_) => None
  }

  /** Successful calls among the first `i`. */
  function Successes(s: Ids, calls: seq<Call>, i: nat): nat
    requires i <= |calls|
  {
    if i == 0 then 0 else Successes(s, calls, i - 1) + if Issued(s, calls, i - 1).Some? then 1 else 0
  }

  /** Call `r` closed an epoch: it succeeded at the boundary. */
  predicate Reset(s: Ids, calls: seq<Call>, r: nat)
    requires r < |calls|
  {
    AtBoundary(Run(s, calls[..r])) && Issued(s, calls, r).Some?
  }

  lemma RunNext(s: Ids, calls: seq<Call>, i: nat)
    requires i < |calls|
    ensures Run(s, calls[..i + 1]) == Step(Run(s, calls[..i]), calls[i])
  {
    var next := calls[..i + 1];
    assert next[..|next| - 1] == calls[..i] && next[|next| - 1] == calls[i];
  }

  predicate ClocksOk(calls: seq<Call>) {
    forall i :: 0 <= i < |calls| ==> calls[i].now <= U64_MAX
  }

  /** Reachable states stay in range, and the counter of a state names the next ID. */
  lemma {:induction false} RunValid(s: Ids, calls: seq<Call>, i: nat)
    requires s.Valid() && ClocksOk(calls) && i <= |calls|
    ensures Run(s, calls[..i]).Valid()
    ensures Run(s, calls[..i]).nextMid == (s.nextMid + Successes(s, calls, i)) % MIDS
    decreases i
  {
    if i == 0 {
      assert calls[..0] == [];
      Small(s.nextMid);
    } else {
      hide Run, Step;
      RunValid(s, calls, i - 1);
      RunNext(s, calls, i - 1);
      StepValid(Run(s, calls[..i - 1]), calls[i - 1]);
      OneMoreSuccess(s, calls, i - 1);
      hide Issued, Successes, Outcome;
      Wrap(s.nextMid + Successes(s, calls, i - 1));
    }
  }

  lemma OneMoreSuccess(s: Ids, calls: seq<Call>, i: nat)
    requires i < |calls|
    ensures Successes(s, calls, i + 1)
         == Successes(s, calls, i) + if Outcome(Run(s, calls[..i]), calls[i]).Ok? then 1 else 0
  {
    hide Run, Outcome;
  }

  lemma StepValid(s: Ids, c: Call)
    requires s.Valid() && c.now <= U64_MAX
    ensures Step(s, c).Valid()
    ensures Step(s, c).nextMid == if Outcome(s, c).Ok? then (s.nextMid + 1) % MIDS else s.nextMid
  {
    SampleRange(c.draws, 0);
  }

  lemma {:induction false} SampleRange(draws: Draws, k: nat)
    requires k <= TRIES
    ensures Sample(draws, k).Ok? ==> Sample(draws, k).value <= ACK_RANDOM_SPAN_MS
    decreases TRIES - k
  {
    if k < TRIES {
      SampleRange(draws, k + 1);
    }
  }

  lemma Small(n: nat)
    requires n < MIDS
    ensures n % MIDS == n
  {
  }

  lemma Wrap(n: nat)
    ensures (n % MIDS + 1) % MIDS == (n + 1) % MIDS
  {
  }

  lemma {:induction false} SuccessesGrow(s: Ids, calls: seq<Call>, i: nat, j: nat)
    requires i <= j <= |calls|
    ensures Successes(s, calls, i) <= Successes(s, calls, j)
    decreases j - i
  {
    if i < j {
      SuccessesGrow(s, calls, i, j - 1);
    }
  }

  lemma SameResidue(a: nat, b: nat)
    requires a < b
    ensures a % MIDS == b % MIDS <==> (b - a) % MIDS == 0
    ensures a % MIDS == b % MIDS ==> b - a >= MIDS
  {
  }

  /** The same ID comes back exactly after a whole number of trips round the ID space: in
      particular, 65536 consecutive issues are pairwise distinct. */
  lemma SameIdIff(s: Ids, calls: seq<Call>, i: nat, j: nat)
    requires s.Valid() && ClocksOk(calls) && i < j < |calls|
    requires Issued(s, calls, i).Some? && Issued(s, calls, j).Some?
    ensures Issued(s, calls, i) == Issued(s, calls, j)
            <==> (Successes(s, calls, j) - Successes(s, calls, i)) % MIDS == 0
    ensures Issued(s, calls, i) == Issued(s, calls, j) ==> Successes(s, calls, j) - Successes(s, calls, i) >= MIDS
  {
    hide Run, Sample;
    RunValid(s, calls, i);
    RunValid(s, calls, j);
    SuccessesGrow(s, calls, i + 1, j);
    SameResidue(s.nextMid + Successes(s, calls, i), s.nextMid + Successes(s, calls, j));
  }

  /** How many issues ago `mid` was handed out, if the counter has not yet come round. */
  function Age(s: Ids, mid: nat): nat {
    (s.nextMid - mid - 1) % MIDS + 1
  }

  /** `mid` was issued no earlier than `time` in the current epoch, or a whole lifetime has passed
      on the high-water clock since. */
  predicate Aged(s: Ids, mid: nat, time: nat) {
    || (Age(s, mid) <= s.issued && time <= s.lastMs)
    || time + EXCHANGE_LIFETIME_MS <= s.lastMs
  }

  lemma AgedStep(s: Ids, c: Call, mid: nat, time: nat)
    requires s.Valid() && mid < MIDS && Aged(s, mid, time)
    ensures Aged(Step(s, c), mid, time)
    ensures Outcome(s, c) == Ok(mid) ==> time + EXCHANGE_LIFETIME_MS <= Step(s, c).lastMs
  {
    hide Sample;
  }

  lemma {:induction false} AgedRun(s: Ids, calls: seq<Call>, i: nat, j: nat)
    requires s.Valid() && ClocksOk(calls) && i < j <= |calls| && Issued(s, calls, i).Some?
    ensures Aged(Run(s, calls[..j]), Issued(s, calls, i).value, calls[i].now)
    decreases j
  {
    hide Run, Step;
    var mid := Issued(s, calls, i).value;
    RunValid(s, calls, j - 1);
    RunValid(s, calls, i);
    RunNext(s, calls, j - 1);
    if i + 1 == j {
      JustIssued(Run(s, calls[..i]), calls[i]);
    } else {
      AgedRun(s, calls, i, j - 1);
      AgedStep(Run(s, calls[..j - 1]), calls[j - 1], mid, calls[i].now);
    }
  }

  lemma JustIssued(s: Ids, c: Call)
    requires s.Valid() && Outcome(s, c).Ok?
    ensures Aged(Step(s, c), Outcome(s, c).value, c.now)
  {
    hide Sample;
    assert Age(Step(s, c), s.nextMid) == 1;
  }

  /** Reuse interval: however the clock moves and whichever calls fail, an ID issued again has
      waited out EXCHANGE_LIFETIME on the highest time the allocator was ever given. */
  lemma ReuseWaits(s: Ids, calls: seq<Call>, i: nat, j: nat)
    requires s.Valid() && ClocksOk(calls) && i < j < |calls|
    requires Issued(s, calls, i).Some? && Issued(s, calls, i) == Issued(s, calls, j)
    ensures calls[i].now + EXCHANGE_LIFETIME_MS <= Run(s, calls[..j + 1]).lastMs
  {
    hide Run, Step, Aged;
    AgedRun(s, calls, i, j);
    RunValid(s, calls, i);
    RunValid(s, calls, j);
    RunNext(s, calls, j);
    AgedStep(Run(s, calls[..j]), calls[j], Issued(s, calls, i).value, calls[i].now);
  }

  /** Without an epoch change, the counter of the epoch counts the issues. */
  lemma {:induction false} EpochCounts(s: Ids, calls: seq<Call>, i: nat, j: nat)
    requires s.Valid() && ClocksOk(calls) && i <= j <= |calls|
    requires forall r :: i <= r < j ==> !Reset(s, calls, r)
    ensures Run(s, calls[..j]).issued == Run(s, calls[..i]).issued + Successes(s, calls, j) - Successes(s, calls, i)
    decreases j
  {
    if i < j {
      hide Run, Sample;
      EpochCounts(s, calls, i, j - 1);
      RunNext(s, calls, j - 1);
      assert !Reset(s, calls, j - 1);
    }
  }

  /** Every reuse is preceded by an epoch change after the first issue, and that change found no
      pending confirmable and a full lifetime of silence. */
  lemma ReuseCrossesBoundary(s: Ids, calls: seq<Call>, i: nat, j: nat) returns (r: nat)
    requires s.Valid() && ClocksOk(calls) && i < j < |calls|
    requires Issued(s, calls, i).Some? && Issued(s, calls, i) == Issued(s, calls, j)
    ensures i < r <= j && Reset(s, calls, r)
    ensures !calls[r].pending && Run(s, calls[..r]).lastMs + EXCHANGE_LIFETIME_MS <= calls[r].now
  {
    hide Run, Sample;
    SameIdIff(s, calls, i, j);
    assert Successes(s, calls, i + 1) == Successes(s, calls, i) + 1;
    RunNext(s, calls, i);
    RunValid(s, calls, j + 1);
    if forall r :: i < r <= j ==> !Reset(s, calls, r) {
      EpochCounts(s, calls, i + 1, j + 1);
      assert false;
    }
    r :| i < r <= j && Reset(s, calls, r);
  }
}
