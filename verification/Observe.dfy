/**
 Notification ordering and representation format: the client's masked comparison is the freshness
 condition of section 3.4 of RFC 7641, and accepted notifications follow the sender's order.
 */
module Observe {
  import opened Common

  const U32: nat := 0x1_0000_0000
  const SEQUENCES: nat := 0x100_0000
  const HALF: nat := 0x80_0000
  const FALLBACK_MS: nat := 128_000

  /** `observe_fresh` on the recorded and the received value: a wrapping subtraction of 32-bit
      numbers whose low 24 bits are kept, or a long enough silence. */
  predicate Fresh(previous: nat, received: nat, sequence: nat, now: nat) {
    var delta := (sequence - previous) % U32 % SEQUENCES;
    (delta != 0 && delta < HALF) || SatSub(now, received) > FALLBACK_MS
  }

  /** Section 3.4 of RFC 7641. */
  predicate Newer(v1: nat, t1: nat, v2: nat, t2: nat) {
    (v1 < v2 && v2 - v1 < 8_388_608) || (v1 > v2 && v1 - v2 > 8_388_608) || t2 > t1 + 128_000
  }

  lemma MaskedDelta(v1: nat, v2: nat)
    requires v1 < SEQUENCES && v2 < SEQUENCES
    ensures (v2 - v1) % U32 % SEQUENCES == if v2 >= v1 then v2 - v1 else v2 - v1 + SEQUENCES
  {
    if v2 < v1 {
      assert (v2 - v1) % U32 == v2 - v1 + U32;
      assert v2 - v1 + U32 == 255 * SEQUENCES + (v2 - v1 + SEQUENCES);
    }
  }

  /** The masked test is the three-clause condition, for all 24-bit values and all times. */
  lemma FreshIsNewer(v1: nat, t1: nat, v2: nat, t2: nat)
    requires v1 < SEQUENCES && v2 < SEQUENCES
    ensures Fresh(v1, t1, v2, t2) <==> Newer(v1, t1, v2, t2)
  {
    MaskedDelta(v1, v2);
  }

  // One observation's record over a run of notifications and refreshes.

  datatype Format = Absent | Known(id: nat) | Malformed

  /** `sequence` is present only for a successful block zero with a readable Observe option. */
  datatype Notification = Notification(sequence: Option<nat>, valid: bool, format: Format, now: nat)

  datatype Record = Record(observed: Option<(nat, nat)>, format: Option<Option<nat>>)

  predicate RecordFresh(r: Record, n: Notification) {
    n.sequence.None? || r.observed.None? || Fresh(r.observed.value.0, r.observed.value.1, n.sequence.value, n.now)
  }

  function FormatOf(n: Notification): Option<nat> {
    if n.format.Known? then Some(n.format.id) else None
  }

  /** A 2.03 without a format revalidates and says nothing about the representation. */
  predicate Silent(n: Notification) {
    n.valid && n.format.Absent?
  }

  predicate FormatMatches(r: Record, n: Notification) {
    || n.sequence.None?
    || (!n.format.Malformed? && (Silent(n) || r.format.None? || r.format.value == FormatOf(n)))
  }

  /** `observe_format_admissible`: a stale unprotected notification is never judged by its format. */
  predicate Admissible(r: Record, n: Notification, protected: bool) {
    (!protected && !RecordFresh(r, n)) || FormatMatches(r, n)
  }

  /** The notification replaces the stored representation. */
  predicate Accepted(r: Record, n: Notification, protected: bool) {
    Admissible(r, n, protected) && (protected || RecordFresh(r, n))
  }

  /** `record_observation`. */
  function Recorded(r: Record, n: Notification): Record {
    if n.sequence.None? then r
    else Record(Some((n.sequence.value, n.now)),
                if r.format.None? && !Silent(n) then Some(FormatOf(n)) else r.format)
  }

  /** An accepted notification is recorded; any other leaves the record alone. A refresh of the
      subscription carries the record over unchanged, so it needs no step of its own. */
  function Step(r: Record, n: Notification, protected: bool): Record {
    if Accepted(r, n, protected) then Recorded(r, n) else r
  }

  function Run(r: Record, ns: seq<Notification>, protected: bool): Record
    decreases |ns|
  {
    if ns == [] then r else Step(Run(r, ns[..|ns| - 1], protected), ns[|ns| - 1], protected)
  }

  predicate AcceptedAt(r: Record, ns: seq<Notification>, protected: bool, i: nat)
    requires i < |ns|
  {
    ns[i].sequence.Some? && Accepted(Run(r, ns[..i], protected), ns[i], protected)
  }

  lemma RunNext(r: Record, ns: seq<Notification>, protected: bool, i: nat)
    requires i < |ns|
    ensures Run(r, ns[..i + 1], protected) == Step(Run(r, ns[..i], protected), ns[i], protected)
  {
    var next := ns[..i + 1];
    assert next[..|next| - 1] == ns[..i] && next[|next| - 1] == ns[i];
  }

  /** The last accepted notification before `i`. */
  ghost predicate LastBefore(r: Record, ns: seq<Notification>, k: nat, i: nat) {
    k < i <= |ns| && AcceptedAt(r, ns, false, k) && forall j :: k < j < i ==> !AcceptedAt(r, ns, false, j)
  }

  /** The sender numbers its notifications `counters[i]`, unbounded, and sends the low 24 bits. One that
      arrives within the fallback time of the last accepted is within half the number space of it;
      the subscription itself may last and count as long as it likes. */
  ghost predicate SentBy(r: Record, ns: seq<Notification>, counters: seq<nat>) {
    && |counters| == |ns|
    && (forall i :: 0 <= i < |ns| && ns[i].sequence.Some? ==> ns[i].sequence.value == counters[i] % SEQUENCES)
    && (forall k: nat, i: nat :: LastBefore(r, ns, k, i) && i < |ns| && ns[i].sequence.Some? && !Late(ns[k], ns[i]) ==>
          -(HALF as int) < counters[i] - counters[k] < HALF)
  }

  /** So long after the other that the fallback lets it through whatever its number. */
  predicate Late(last: Notification, n: Notification) {
    n.now > last.now + FALLBACK_MS
  }

  /** What the fallback takes for granted: nothing accepted after a silence is an old one delayed. */
  ghost predicate Timely(r: Record, ns: seq<Notification>, counters: seq<nat>)
    requires |counters| == |ns|
  {
    forall k: nat, i: nat :: LastBefore(r, ns, k, i) && i < |ns| && AcceptedAt(r, ns, false, i) && Late(ns[k], ns[i]) ==>
      counters[k] < counters[i]
  }

  /** What the record says after `i` notifications: the last accepted one, and nothing accepted
      before it is newer in the sender's order. */
  ghost predicate Follows(r: Record, ns: seq<Notification>, counters: seq<nat>, i: nat, last: int)
    requires i <= |ns| == |counters|
  {
    && -1 <= last < i
    && (last == -1 ==> Run(r, ns[..i], false).observed.None?)
    && (last >= 0 ==> && LastBefore(r, ns, last, i)
                      && Run(r, ns[..i], false).observed == Some((ns[last].sequence.value, ns[last].now)))
    && (forall k :: 0 <= k < i && AcceptedAt(r, ns, false, k) ==>
          k <= last && (k < last ==> counters[k] < counters[last]))
  }

  lemma CloseCounters(a: nat, b: nat)
    requires -(HALF as int) < b - a < HALF
    ensures var delta := (b % SEQUENCES - a % SEQUENCES) % U32 % SEQUENCES;
            delta != 0 && delta < HALF <==> a < b
  {
    var q, p := a / SEQUENCES, b / SEQUENCES;
    assert a == q * SEQUENCES + a % SEQUENCES && b == p * SEQUENCES + b % SEQUENCES;
    MaskedDelta(a % SEQUENCES, b % SEQUENCES);
    assert -1 <= p - q <= 1;
  }

  lemma FollowsNext(r: Record, ns: seq<Notification>, counters: seq<nat>, i: nat, last: int) returns (next: int)
    requires SentBy(r, ns, counters) && Timely(r, ns, counters) && i < |ns| && Follows(r, ns, counters, i, last)
    ensures Follows(r, ns, counters, i + 1, next)
  {
    hide Run, Fresh, FormatMatches;
    RunNext(r, ns, false, i);
    if ns[i].sequence.Some? {
      FreshAfter(r, ns, counters, i, last);
    }
    next := if AcceptedAt(r, ns, false, i) then i else last;
  }

  /** What the record lets through: whatever is newer than the last accepted one, or late. */
  lemma FreshAfter(r: Record, ns: seq<Notification>, counters: seq<nat>, i: nat, last: int)
    requires SentBy(r, ns, counters) && i < |ns| && Follows(r, ns, counters, i, last) && ns[i].sequence.Some?
    ensures RecordFresh(Run(r, ns[..i], false), ns[i]) <==>
              last == -1 || Late(ns[last], ns[i]) || counters[last] < counters[i]
  {
    hide Run, Fresh, FormatMatches;
    if last >= 0 {
      assert LastBefore(r, ns, last, i);
      if Late(ns[last], ns[i]) {
        LateIsFresh(ns[last].sequence.value, ns[last].now, ns[i].sequence.value, ns[i].now);
      } else {
        FreshInOrder(ns[last].sequence.value, ns[last].now, ns[i].sequence.value, ns[i].now, counters[last], counters[i]);
      }
    }
  }

  lemma LateIsFresh(v1: nat, t1: nat, v2: nat, t2: nat)
    requires t2 > t1 + FALLBACK_MS
    ensures Fresh(v1, t1, v2, t2)
  {
  }

  lemma FreshInOrder(v1: nat, t1: nat, v2: nat, t2: nat, a: nat, b: nat)
    requires v1 == a % SEQUENCES && v2 == b % SEQUENCES && -(HALF as int) < b - a < HALF && t2 <= t1 + FALLBACK_MS
    ensures Fresh(v1, t1, v2, t2) <==> a < b
  {
    CloseCounters(a, b);
  }

  lemma {:induction false} FollowsAll(r: Record, ns: seq<Notification>, counters: seq<nat>, i: nat) returns (last: int)
    requires r.observed.None? && SentBy(r, ns, counters) && Timely(r, ns, counters) && i <= |ns|
    ensures Follows(r, ns, counters, i, last)
    decreases i
  {
    if i == 0 {
      assert ns[..0] == [];
      last := -1;
    } else {
      hide Follows, SentBy, Timely;
      assert i <= |ns| == |counters| by { Paired(r, ns, counters); }
      var before := FollowsAll(r, ns, counters, i - 1);
      last := FollowsNext(r, ns, counters, i - 1, before);
    }
  }

  lemma Paired(r: Record, ns: seq<Notification>, counters: seq<nat>)
    requires SentBy(r, ns, counters)
    ensures |counters| == |ns|
  {
  }

  /** Accepted unprotected notifications are strictly increasing in the sender's own order, however
      long the subscription and however often its numbers wrap. */
  lemma SenderOrder(r: Record, ns: seq<Notification>, counters: seq<nat>, i: nat, j: nat)
    requires r.observed.None? && SentBy(r, ns, counters) && Timely(r, ns, counters) && i < j < |ns|
    requires AcceptedAt(r, ns, false, i) && AcceptedAt(r, ns, false, j)
    ensures counters[i] < counters[j]
  {
    var last := FollowsAll(r, ns, counters, j + 1);
    assert last == j;
  }

  ghost predicate InOrder(r: Record, ns: seq<Notification>, counters: seq<nat>)
    requires |counters| == |ns|
  {
    forall i, j :: 0 <= i < j < |ns| && AcceptedAt(r, ns, false, i) && AcceptedAt(r, ns, false, j) ==>
      counters[i] < counters[j]
  }

  /** They are in order if and only if the fallback was right each time it let one through. */
  lemma SenderOrderIff(r: Record, ns: seq<Notification>, counters: seq<nat>)
    requires r.observed.None? && SentBy(r, ns, counters)
    ensures InOrder(r, ns, counters) <==> Timely(r, ns, counters)
  {
    hide AcceptedAt, SentBy;
    Paired(r, ns, counters);
    if Timely(r, ns, counters) {
      forall i, j | 0 <= i < j < |ns| && AcceptedAt(r, ns, false, i) && AcceptedAt(r, ns, false, j)
        ensures counters[i] < counters[j]
      {
        SenderOrder(r, ns, counters, i, j);
      }
    }
  }

  /** And nothing newer is held back: a notification is fresh exactly when the sender numbered it
      after every one accepted so far, or it comes late. */
  lemma FreshIffNewest(r: Record, ns: seq<Notification>, counters: seq<nat>, i: nat)
    requires r.observed.None? && SentBy(r, ns, counters) && Timely(r, ns, counters) && i < |ns| && ns[i].sequence.Some?
    ensures RecordFresh(Run(r, ns[..i], false), ns[i]) <==>
              || (forall k :: 0 <= k < i && AcceptedAt(r, ns, false, k) ==> counters[k] < counters[i])
              || (exists k: nat :: LastBefore(r, ns, k, i) && Late(ns[k], ns[i]))
  {
    var last := FollowsAll(r, ns, counters, i);
    FreshAfter(r, ns, counters, i, last);
    if last >= 0 {
      assert LastBefore(r, ns, last, i);
    }
  }

  /** A format once recorded is never changed. */
  lemma {:induction false} FormatSticks(r: Record, ns: seq<Notification>, protected: bool, i: nat, j: nat)
    requires i <= j <= |ns| && Run(r, ns[..i], protected).format.Some?
    ensures Run(r, ns[..j], protected).format == Run(r, ns[..i], protected).format
    decreases j
  {
    if i < j {
      hide Run, Fresh;
      FormatSticks(r, ns, protected, i, j - 1);
      RunNext(r, ns, protected, j - 1);
    }
  }

  /** Across the whole run, protected or not, every accepted representation has the first
      accepted representation's format. */
  lemma OneFormat(r: Record, ns: seq<Notification>, protected: bool, i: nat, j: nat)
    requires i < j < |ns| && AcceptedAt(r, ns, protected, i) && AcceptedAt(r, ns, protected, j)
    requires !Silent(ns[i]) && !Silent(ns[j])
    ensures FormatOf(ns[i]) == FormatOf(ns[j])
  {
    hide Run, Fresh;
    RunNext(r, ns, protected, i);
    FormatSticks(r, ns, protected, i + 1, j);
  }

  lemma {:induction false} FormatIs(r: Record, ns: seq<Notification>, protected: bool, i: nat)
    requires r.format.None? && i <= |ns|
    ensures var format := Run(r, ns[..i], protected).format;
            && (format.None? <==> forall k :: 0 <= k < i && AcceptedAt(r, ns, protected, k) ==> Silent(ns[k]))
            && (format.Some? ==> forall k :: 0 <= k < i && AcceptedAt(r, ns, protected, k) && !Silent(ns[k]) ==>
                                   FormatOf(ns[k]) == format.value)
    decreases i
  {
    hide Fresh;
    if i > 0 {
      FormatIs(r, ns, protected, i - 1);
      hide Run;
      RunNext(r, ns, protected, i - 1);
    } else {
      assert ns[..0] == [];
    }
  }

  /** Exactly which notifications of a new subscription are accepted: those that are fresh, or protected, whose
      format can be read and is that of every representation accepted before. */
  lemma AcceptedIff(r: Record, ns: seq<Notification>, protected: bool, i: nat)
    requires r.format.None? && i < |ns| && ns[i].sequence.Some?
    ensures AcceptedAt(r, ns, protected, i) <==>
              && (protected || RecordFresh(Run(r, ns[..i], protected), ns[i]))
              && !ns[i].format.Malformed?
              && (Silent(ns[i]) || forall k :: 0 <= k < i && AcceptedAt(r, ns, protected, k) && !Silent(ns[k]) ==>
                                     FormatOf(ns[k]) == FormatOf(ns[i]))
  {
    hide Run, Fresh;
    FormatIs(r, ns, protected, i);
  }
}
