/**
 * The derived views of a roadmap that the roadmap screen computes on every
 * render: the flattened task sequence, day numbers, the sequential lock,
 * the current task, the completion percentage, the phase opened on load,
 * what a click on a task does, and the title search.
 */
module Roadmap {
  import opened Types
  import opened Strings

  // ---------------------------------------------------------------- flattening

  /** Number of items in all phases. */
  function ItemCount(phases: seq<Phase>): nat {
    if |phases| == 0 then 0 else |phases[0].items| + ItemCount(phases[1..])
  }

  /** `phases.flatMap(phase => phase.items)`: the items of every phase, phase after phase. */
  function Flatten(phases: seq<Phase>): (flat: seq<RoadmapItem>)
    ensures |flat| == ItemCount(phases)
  {
    if |phases| == 0 then [] else phases[0].items + Flatten(phases[1..])
  }

  /** Flattening distributes over concatenation of phase lists. */
  lemma {:induction false} FlattenAppend(a: seq<Phase>, b: seq<Phase>)
    ensures Flatten(a + b) == Flatten(a) + Flatten(b)
    decreases |a|
  {
    if |a| == 0 {
      assert a + b == b;
    } else {
      assert (a + b)[1..] == a[1..] + b;
      FlattenAppend(a[1..], b);
    }
  }

  /** Index in the flattened sequence of the first item of phase `p`. */
  function Offset(phases: seq<Phase>, p: nat): nat
    requires p <= |phases|
  {
    ItemCount(phases[..p])
  }

  /** Item `k` of phase `p` sits at position `Offset(phases, p) + k` of the flattened sequence. */
  lemma {:induction false} FlattenAt(phases: seq<Phase>, p: nat, k: nat)
    requires p < |phases| && k < |phases[p].items|
    ensures Offset(phases, p) + k < |Flatten(phases)|
    ensures Flatten(phases)[Offset(phases, p) + k] == phases[p].items[k]
  {
    var pre, rest := phases[..p], phases[p..];
    assert phases == pre + rest;
    FlattenAppend(pre, rest);
    assert Flatten(rest) == phases[p].items + Flatten(rest[1..]);
  }

  /** Every flattened position belongs to exactly one (phase, index-in-phase) pair. */
  lemma {:induction false} FlattenLocate(phases: seq<Phase>, i: nat) returns (p: nat, k: nat)
    requires i < |Flatten(phases)|
    ensures p < |phases| && k < |phases[p].items| && Offset(phases, p) + k == i
    ensures Flatten(phases)[i] == phases[p].items[k]
    decreases |phases|
  {
    if i < |phases[0].items| {
      p, k := 0, i;
      assert phases[..0] == [];
    } else {
      var p', k' := FlattenLocate(phases[1..], i - |phases[0].items|);
      p, k := p' + 1, k';
      assert phases[1..][..p'] == phases[1..p];
      assert phases[..p] == [phases[0]] + phases[1..p];
      assert ItemCount(phases[..p]) == |phases[0].items| + ItemCount(phases[1..p]);
    }
  }

  /** Offsets grow by whole phases: a later phase starts after every item of an earlier one. */
  lemma {:induction false} OffsetMonotone(phases: seq<Phase>, p: nat, q: nat)
    requires p < q <= |phases|
    ensures Offset(phases, p) + |phases[p].items| <= Offset(phases, q)
    decreases q - p
  {
    OffsetStep(phases, p);
    if p + 1 < q {
      OffsetMonotone(phases, p + 1, q);
      OffsetStep(phases, p + 1);
    }
  }

  lemma OffsetStep(phases: seq<Phase>, p: nat)
    requires p < |phases|
    ensures Offset(phases, p + 1) == Offset(phases, p) + |phases[p].items|
  {
    assert phases[..p + 1] == phases[..p] + [phases[p]];
    FlattenAppend(phases[..p], [phases[p]]);
  }

  predicate DistinctIds(flat: seq<RoadmapItem>) {
    forall i, j :: 0 <= i < j < |flat| ==> flat[i].id != flat[j].id
  }

  // ---------------------------------------------------------------- day numbers

  /**
   * The id-to-day map `itemStartDays` builds: each item's id is written with
   * 1 + its flattened index, a later item with the same id overwriting.
   */
  function StartDays(flat: seq<RoadmapItem>): map<string, int>
    decreases |flat|
  {
    if |flat| == 0 then map[]
    else StartDays(flat[..|flat| - 1])[flat[|flat| - 1].id := |flat|]
  }

  /** The `forEach` loop that fills `itemStartDays`. */
  method ItemStartDays(flat: seq<RoadmapItem>) returns (days: map<string, int>)
    ensures days == StartDays(flat)
  {
    days := map[];
    var idx := 0;
    while idx < |flat|
      invariant 0 <= idx <= |flat|
      invariant days == StartDays(flat[..idx])
    {
      assert flat[..idx + 1][..idx] == flat[..idx];
      days := days[flat[idx].id := idx + 1];
      idx := idx + 1;
    }
    assert flat[..|flat|] == flat;
  }

  /** Exactly the ids that occur in the sequence get a day number. */
  lemma {:induction false} StartDaysKeys(flat: seq<RoadmapItem>)
    ensures StartDays(flat).Keys == set i | 0 <= i < |flat| :: flat[i].id
    decreases |flat|
  {
    if |flat| > 0 {
      var pre := flat[..|flat| - 1];
      var last := flat[|flat| - 1].id;
      StartDaysKeys(pre);
      var all := set i | 0 <= i < |flat| :: flat[i].id;
      var before := set i | 0 <= i < |pre| :: pre[i].id;
      forall x | x in all
        ensures x in before + {last}
      {
        var i :| 0 <= i < |flat| && flat[i].id == x;
        if i < |pre| {
          assert pre[i].id == x;
        }
      }
      forall x | x in before
        ensures x in all
      {
        var i :| 0 <= i < |pre| && pre[i].id == x;
        assert flat[i].id == x;
      }
      assert flat[|flat| - 1].id in all;
      assert all == before + {last};
    }
  }

  /**
   * Whatever the ids, the day number of an id is 1 + the position of its
   * LAST occurrence: a later duplicate overwrites an earlier one.
   */
  lemma {:induction false} StartDaysLastOccurrence(flat: seq<RoadmapItem>, id: string)
    requires id in StartDays(flat)
    ensures 1 <= StartDays(flat)[id] <= |flat|
    ensures flat[StartDays(flat)[id] - 1].id == id
    ensures forall j :: StartDays(flat)[id] <= j < |flat| ==> flat[j].id != id
    decreases |flat|
  {
    var pre := flat[..|flat| - 1];
    if id != flat[|flat| - 1].id {
      StartDaysLastOccurrence(pre, id);
      assert flat[StartDays(pre)[id] - 1] == pre[StartDays(pre)[id] - 1];
    }
  }

  /**
   * With pairwise-distinct ids, day numbers are 1 + the flattened index:
   * a strictly increasing bijection from flattened order onto {1..N}.
   */
  lemma StartDaysBijection(flat: seq<RoadmapItem>)
    requires DistinctIds(flat)
    ensures forall i :: 0 <= i < |flat| ==> flat[i].id in StartDays(flat) && StartDays(flat)[flat[i].id] == i + 1
    ensures forall i, j :: 0 <= i < j < |flat| ==> StartDays(flat)[flat[i].id] < StartDays(flat)[flat[j].id]
    ensures forall n :: 1 <= n <= |flat| ==> n in StartDays(flat).Values
    ensures forall n :: n in StartDays(flat).Values ==> 1 <= n <= |flat|
  {
    StartDaysKeys(flat);
    var m := StartDays(flat);
    forall i | 0 <= i < |flat|
      ensures flat[i].id in m && m[flat[i].id] == i + 1
    {
      assert flat[i].id in m.Keys;
      StartDaysLastOccurrence(flat, flat[i].id);
    }
    forall n | 1 <= n <= |flat| ensures n in m.Values {
      assert m[flat[n - 1].id] == n;
    }
    forall n | n in m.Values ensures 1 <= n <= |flat| {
      var id :| id in m && m[id] == n;
      StartDaysLastOccurrence(flat, id);
    }
  }

  // ---------------------------------------------------------------- lookup and lock

  /** `flat.findIndex(i => i.id === id)`: the first position holding `id`, or -1. */
  function FindIndex(flat: seq<RoadmapItem>, id: string): (r: int)
    ensures -1 <= r < |flat|
    ensures r >= 0 ==> flat[r].id == id && forall j :: 0 <= j < r ==> flat[j].id != id
    ensures r == -1 ==> forall j :: 0 <= j < |flat| ==> flat[j].id != id
    decreases |flat|
  {
    if |flat| == 0 then -1
    else if flat[0].id == id then 0
    else var r := FindIndex(flat[1..], id); if r < 0 then -1 else r + 1
  }

  /** `isLocked(item)`: a pending item whose predecessor in flattened order is not completed. */
  predicate IsLocked(flat: seq<RoadmapItem>, item: RoadmapItem) {
    if item.status == Completed then false
    else
      var index := FindIndex(flat, item.id);
      if index <= 0 then false else flat[index - 1].status != Completed
  }

  /**
   * The sequential lock: a completed item, the first item and an unknown id
   * are never locked; any other item at position k > 0 (ids distinct) is
   * locked exactly when neither it nor item k-1 is completed.
   */
  lemma LockRule(flat: seq<RoadmapItem>, item: RoadmapItem)
    ensures item.status == Completed ==> !IsLocked(flat, item)
    ensures |flat| > 0 && item.id == flat[0].id ==> !IsLocked(flat, item)
    ensures (forall i :: 0 <= i < |flat| ==> flat[i].id != item.id) ==> !IsLocked(flat, item)
    ensures forall k :: 0 < k < |flat| && DistinctIds(flat) && item == flat[k] ==>
      (IsLocked(flat, item) <==> item.status == Pending && flat[k - 1].status == Pending)
  {
    forall k | 0 < k < |flat| && DistinctIds(flat) && item == flat[k]
      ensures IsLocked(flat, item) <==> item.status == Pending && flat[k - 1].status == Pending
    {
      assert FindIndex(flat, item.id) == k;
    }
  }

  // ---------------------------------------------------------------- current task

  /** Position of the first pending item at or after `k`, or -1. */
  function FirstPendingFrom(flat: seq<RoadmapItem>, k: nat): (r: int)
    requires k <= |flat|
    ensures -1 <= r < |flat|
    ensures r >= 0 ==> k <= r && flat[r].status == Pending && forall j :: k <= j < r ==> flat[j].status == Completed
    ensures r == -1 ==> forall j :: k <= j < |flat| ==> flat[j].status == Completed
    decreases |flat| - k
  {
    if k == |flat| then -1
    else if flat[k].status == Pending then k
    else
      var r := FirstPendingFrom(flat, k + 1);
      assert flat[k].status == Completed;
      r
  }

  /** Position of the first pending item, or -1. */
  function FirstPending(flat: seq<RoadmapItem>): (r: int)
    ensures -1 <= r < |flat|
    ensures r >= 0 ==> flat[r].status == Pending && forall j :: 0 <= j < r ==> flat[j].status == Completed
    ensures r == -1 ==> forall j :: 0 <= j < |flat| ==> flat[j].status == Completed
  {
    FirstPendingFrom(flat, 0)
  }

  /** `flat.find(item => item.status === 'pending')`. */
  function CurrentTask(flat: seq<RoadmapItem>): (t: Option<RoadmapItem>)
    ensures t.None? <==> forall j :: 0 <= j < |flat| ==> flat[j].status != Pending
    ensures t.Some? ==> exists i :: (0 <= i < |flat| && flat[i] == t.value && flat[i].status == Pending
      && forall j :: 0 <= j < i ==> flat[j].status == Completed)
  {
    var i := FirstPending(flat);
    if i < 0 then None else Some(flat[i])
  }

  /** The current task is never locked, whatever the ids. */
  lemma CurrentTaskUnlocked(flat: seq<RoadmapItem>)
    ensures CurrentTask(flat).Some? ==> !IsLocked(flat, CurrentTask(flat).value)
  {
    var i := FirstPending(flat);
    if i >= 0 {
      var t := flat[i];
      var j := FindIndex(flat, t.id);
      assert j <= i;
      if j > 0 {
        assert flat[j - 1].status == Completed;
      }
    }
  }

  // ---------------------------------------------------------------- percentage

  function CompletedCount(flat: seq<RoadmapItem>): (n: nat)
    ensures n <= |flat|
  {
    if |flat| == 0 then 0
    else (if flat[0].status == Completed then 1 else 0) + CompletedCount(flat[1..])
  }

  lemma {:induction false} CompletedCountAppend(a: seq<RoadmapItem>, b: seq<RoadmapItem>)
    ensures CompletedCount(a + b) == CompletedCount(a) + CompletedCount(b)
    decreases |a|
  {
    if |a| == 0 {
      assert a + b == b;
    } else {
      assert (a + b)[1..] == a[1..] + b;
      CompletedCountAppend(a[1..], b);
    }
  }

  /** `Math.round(100 * c / t)` in exact arithmetic: floor(100c/t + 1/2). */
  function RoundPercent(c: nat, t: nat): nat
    requires t > 0
  {
    (200 * c + t) / (2 * t)
  }

  lemma MulCancel(t: int, a: int, b: int)
    requires t > 0 && t * a < t * b
    ensures a < b
  {
  }

  lemma DivUnique(q: int, d: int, k: int)
    requires d > 0 && d * k <= q < d * k + d
    ensures q / d == k
  {
    var m := q / d;
    assert q == d * m + q % d;
    MulCancel(d, k, m + 1);
    MulCancel(d, m, k + 1);
  }

  /**
   * The rounded value is within one half of 100c/t with ties going up, lies
   * in [0,100] when c <= t, and is exactly 0 and 100 at the extremes.
   */
  lemma RoundPercentSpec(c: nat, t: nat)
    requires 0 < t && c <= t
    ensures var r := RoundPercent(c, t);
      2 * t * r <= 200 * c + t < 2 * t * r + 2 * t && r <= 100
    ensures c == 0 ==> RoundPercent(c, t) == 0
    ensures c == t ==> RoundPercent(c, t) == 100
  {
    var r := RoundPercent(c, t);
    var q := 200 * c + t;
    assert q == 2 * t * r + q % (2 * t);
    MulCancel(2 * t, r, 101);
    if c == t {
      DivUnique(q, 2 * t, 100);
    }
    if c == 0 {
      DivUnique(q, 2 * t, 0);
    }
  }

  /** `completionPercentage` of the roadmap screen. */
  function CompletionPercentage(flat: seq<RoadmapItem>): nat {
    if |flat| > 0 then RoundPercent(CompletedCount(flat), |flat|) else 0
  }

  lemma CompletionPercentageBounds(flat: seq<RoadmapItem>)
    ensures 0 <= CompletionPercentage(flat) <= 100
    ensures |flat| == 0 ==> CompletionPercentage(flat) == 0
    ensures CompletedCount(flat) == 0 ==> CompletionPercentage(flat) == 0
    ensures |flat| > 0 && CompletedCount(flat) == |flat| ==> CompletionPercentage(flat) == 100
  {
    if |flat| > 0 {
      RoundPercentSpec(CompletedCount(flat), |flat|);
    }
  }

  lemma RoundPercentExamples()
    ensures RoundPercent(1, 3) == 33 && RoundPercent(2, 3) == 67 && RoundPercent(1, 2) == 50
    ensures RoundPercent(1, 8) == 13
  {
  }

  // ---------------------------------------------------------------- phase opened on load

  predicate HasUnfinished(phase: Phase) {
    exists i :: 0 <= i < |phase.items| && phase.items[i].status != Completed
  }

  /**
   * The load effect's loop: the index of the first phase holding an item that
   * is not completed, or 0 when every phase is finished.
   */
  method FirstPendingPhase(phases: seq<Phase>) returns (firstPendingPhase: nat)
    ensures (forall p :: 0 <= p < |phases| ==> !HasUnfinished(phases[p])) ==> firstPendingPhase == 0
    ensures (exists p :: 0 <= p < |phases| && HasUnfinished(phases[p])) ==>
      firstPendingPhase < |phases| && HasUnfinished(phases[firstPendingPhase])
      && forall p :: 0 <= p < firstPendingPhase ==> !HasUnfinished(phases[p])
  {
    firstPendingPhase := 0;
    var foundPending := false;
    var idx := 0;
    while idx < |phases|
      invariant 0 <= idx <= |phases|
      invariant !foundPending ==> firstPendingPhase == 0 && forall p :: 0 <= p < idx ==> !HasUnfinished(phases[p])
      invariant foundPending ==> (firstPendingPhase < idx && HasUnfinished(phases[firstPendingPhase])
        && forall p :: 0 <= p < firstPendingPhase ==> !HasUnfinished(phases[p]))
    {
      if !foundPending && HasUnfinished(phases[idx]) {
        firstPendingPhase := idx;
        foundPending := true;
      }
      idx := idx + 1;
    }
  }

  // ---------------------------------------------------------------- click on a task

  datatype ClickEffect = Ignore | AskConfirmation(item: RoadmapItem) | ToggleProgress(itemId: string)

  /** `handleTaskClick`: locked items do nothing, pending ones ask for confirmation, completed ones toggle back. */
  function HandleTaskClick(flat: seq<RoadmapItem>, item: RoadmapItem): ClickEffect {
    if IsLocked(flat, item) then Ignore
    else if item.status == Pending then AskConfirmation(item)
    else ToggleProgress(item.id)
  }

  /**
   * A click never toggles a pending item directly, and a completed item is
   * always toggled (it is never locked); clicking the current task asks for
   * confirmation. With distinct ids, a pending item at position k is
   * ignored exactly when item k-1 is pending too, and otherwise (the first
   * item, or one after a completed item) asks for confirmation.
   */
  lemma ClickRules(flat: seq<RoadmapItem>, item: RoadmapItem)
    ensures item.status == Completed ==> HandleTaskClick(flat, item) == ToggleProgress(item.id)
    ensures item.status == Pending ==> HandleTaskClick(flat, item) in {Ignore, AskConfirmation(item)}
    ensures CurrentTask(flat) == Some(item) ==> HandleTaskClick(flat, item) == AskConfirmation(item)
    ensures forall k :: 0 <= k < |flat| && DistinctIds(flat) && item == flat[k] && item.status == Pending ==>
      && (k > 0 && flat[k - 1].status == Pending ==> HandleTaskClick(flat, item) == Ignore)
      && (k == 0 || flat[k - 1].status == Completed ==> HandleTaskClick(flat, item) == AskConfirmation(item))
  {
    CurrentTaskUnlocked(flat);
    LockRule(flat, item);
  }

  // ---------------------------------------------------------------- search

  /** `filterItem`: with a non-empty query, keep the items whose lower-cased title contains the lower-cased query. */
  predicate FilterItem(item: RoadmapItem, query: string) {
    !(query != "" && !Contains(Lower(item.title), Lower(query)))
  }

  /**
   * The empty query keeps everything; the search ignores ASCII case; an
   * item is found by its own title; a match is never longer than the title.
   */
  lemma FilterRules(item: RoadmapItem, query: string)
    ensures FilterItem(item, "")
    ensures FilterItem(item, Lower(query)) == FilterItem(item, query)
    ensures FilterItem(item, item.title)
    ensures FilterItem(item, query) && query != "" ==> |query| <= |item.title|
  {
    LowerIdempotent(query);
    ContainsSelf(Lower(item.title));
    if FilterItem(item, query) && query != "" {
      ContainsLength(Lower(item.title), Lower(query));
    }
  }
}
