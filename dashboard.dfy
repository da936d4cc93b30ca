/**
 * The dashboard's progress logic: resetting and toggling roadmap items,
 * counting progress, the per-career statistics, calendar days left and the
 * pacing verdict, the career-list edits and the practice filters.
 */
module Dashboard {
  import opened Types
  import opened Strings
  import opened Roadmap
  import opened Gemini
  import opened Store

  // ---------------------------------------------------------------- item edits

  /** The two item edits the dashboard applies to every item of a roadmap. */
  datatype ItemEdit = ResetEdit | ToggleEdit(itemId: string)

  function Flip(status: Status): Status {
    if status == Completed then Pending else Completed
  }

  /**
   * Reset: pending with `completedAt` cleared. Toggle: the items with the
   * given id flip between pending and completed, keeping `completedAt`.
   */
  function Apply(edit: ItemEdit, item: RoadmapItem): RoadmapItem {
    match edit
    case ResetEdit => item.(status := Pending, completedAt := None)
    case ToggleEdit(id) => if item.id == id then item.(status := Flip(item.status)) else item
  }

  /** `items.map(...)` with one edit. */
  function EditItems(items: seq<RoadmapItem>, edit: ItemEdit): (r: seq<RoadmapItem>)
    ensures |r| == |items|
  {
    seq(|items|, i requires 0 <= i < |items| => Apply(edit, items[i]))
  }

  function EditPhase(phase: Phase, edit: ItemEdit): Phase {
    phase.(items := EditItems(phase.items, edit))
  }

  /** `phases.map(phase => ({ ...phase, items: phase.items.map(...) }))`. */
  function EditPhases(phases: seq<Phase>, edit: ItemEdit): (r: seq<Phase>)
    ensures |r| == |phases|
  {
    seq(|phases|, p requires 0 <= p < |phases| => EditPhase(phases[p], edit))
  }

  lemma EditItemsAppend(a: seq<RoadmapItem>, b: seq<RoadmapItem>, edit: ItemEdit)
    ensures EditItems(a + b, edit) == EditItems(a, edit) + EditItems(b, edit)
  {
  }

  /** Editing every phase and then flattening equals flattening and then editing every item. */
  lemma {:induction false} FlattenEdit(phases: seq<Phase>, edit: ItemEdit)
    ensures Flatten(EditPhases(phases, edit)) == EditItems(Flatten(phases), edit)
    decreases |phases|
  {
    if |phases| > 0 {
      assert EditPhases(phases, edit)[1..] == EditPhases(phases[1..], edit);
      FlattenEdit(phases[1..], edit);
      EditItemsAppend(phases[0].items, Flatten(phases[1..]), edit);
    }
  }

  // ---------------------------------------------------------------- resets

  /** `handleResetRoadmap`: every item of every phase becomes pending. */
  function ResetRoadmap(roadmap: RoadmapData): RoadmapData {
    roadmap.(phases := EditPhases(roadmap.phases, ResetEdit))
  }

  /** `handleResetPhase`: only the items of phase `phaseIndex` become pending. */
  function ResetPhase(roadmap: RoadmapData, phaseIndex: nat): RoadmapData
    requires phaseIndex < |roadmap.phases|
  {
    roadmap.(phases := roadmap.phases[phaseIndex := EditPhase(roadmap.phases[phaseIndex], ResetEdit)])
  }

  /** The sum of every item's duration, completed or not. */
  function TotalWork(flat: seq<RoadmapItem>): int {
    if |flat| == 0 then 0 else ParseDurationInDays(flat[0].duration) + TotalWork(flat[1..])
  }

  /** After a reset nothing is completed, and all the work is pending again. */
  lemma {:induction false} ResetCounts(flat: seq<RoadmapItem>)
    ensures CompletedCount(EditItems(flat, ResetEdit)) == 0
    ensures PendingWork(EditItems(flat, ResetEdit)) == TotalWork(flat)
    decreases |flat|
  {
    if |flat| > 0 {
      assert EditItems(flat, ResetEdit)[1..] == EditItems(flat[1..], ResetEdit);
      ResetCounts(flat[1..]);
    }
  }

  /**
   * A whole reset keeps the phase count, the phase names, every phase's
   * item count and the recommendation lists.
   */
  lemma ResetRoadmapShape(roadmap: RoadmapData)
    ensures var r := ResetRoadmap(roadmap);
      && |r.phases| == |roadmap.phases|
      && (forall p :: 0 <= p < |r.phases| ==>
            r.phases[p].phaseName == roadmap.phases[p].phaseName && |r.phases[p].items| == |roadmap.phases[p].items|)
      && r.recommendedCertificates == roadmap.recommendedCertificates
      && r.recommendedInternships == roadmap.recommendedInternships
  {
  }

  /**
   * In flattened order a reset keeps every item in place with its id and
   * content, leaving it pending with no completion time; the progress is 0
   * and all the work is pending.
   */
  lemma ResetRoadmapItems(roadmap: RoadmapData)
    ensures var before, after := Flatten(roadmap.phases), Flatten(ResetRoadmap(roadmap).phases);
      && |after| == |before|
      && (forall i :: 0 <= i < |after| ==>
            after[i].status == Pending && after[i].completedAt.None? && after[i].id == before[i].id
            && after[i].(status := before[i].status, completedAt := before[i].completedAt) == before[i])
      && CompletionPercentage(after) == 0
      && PendingWork(after) == TotalWork(before)
  {
    FlattenEdit(roadmap.phases, ResetEdit);
    ResetCounts(Flatten(roadmap.phases));
    CompletionPercentageBounds(Flatten(ResetRoadmap(roadmap).phases));
  }

  /** Resetting twice is resetting once. */
  lemma ResetRoadmapIdempotent(roadmap: RoadmapData)
    ensures ResetRoadmap(ResetRoadmap(roadmap)) == ResetRoadmap(roadmap)
  {
    var once := ResetRoadmap(roadmap).phases;
    forall p | 0 <= p < |once| ensures EditPhase(once[p], ResetEdit) == once[p] {
      assert EditItems(once[p].items, ResetEdit) == once[p].items;
    }
    assert EditPhases(once, ResetEdit) == once;
  }

  /**
   * A phase reset changes only phase `phaseIndex`: it keeps that phase's
   * name, item count and item ids, makes its items pending, and is idempotent.
   */
  lemma ResetPhaseSpec(roadmap: RoadmapData, phaseIndex: nat)
    requires phaseIndex < |roadmap.phases|
    ensures var r := ResetPhase(roadmap, phaseIndex);
      && |r.phases| == |roadmap.phases|
      && (forall q :: 0 <= q < |r.phases| && q != phaseIndex ==> r.phases[q] == roadmap.phases[q])
      && r.phases[phaseIndex].phaseName == roadmap.phases[phaseIndex].phaseName
      && |r.phases[phaseIndex].items| == |roadmap.phases[phaseIndex].items|
      && (forall k :: 0 <= k < |r.phases[phaseIndex].items| ==>
            r.phases[phaseIndex].items[k].id == roadmap.phases[phaseIndex].items[k].id
            && r.phases[phaseIndex].items[k].status == Pending
            && r.phases[phaseIndex].items[k].completedAt.None?)
      && ResetPhase(r, phaseIndex) == r
  {
    var r := ResetPhase(roadmap, phaseIndex);
    var ph := r.phases[phaseIndex];
    assert EditItems(ph.items, ResetEdit) == ph.items;
    assert r.phases[phaseIndex := EditPhase(ph, ResetEdit)] == r.phases;
  }

  // ---------------------------------------------------------------- completion toggle

  /** `handleProgress`: flip the items whose id is `itemId`; no lock check, no completion time. */
  function HandleProgress(roadmap: RoadmapData, itemId: string): RoadmapData {
    roadmap.(phases := EditPhases(roadmap.phases, ToggleEdit(itemId)))
  }

  /** Toggling the same id twice restores the roadmap. */
  lemma HandleProgressInvolution(roadmap: RoadmapData, itemId: string)
    ensures HandleProgress(HandleProgress(roadmap, itemId), itemId) == roadmap
  {
    var once := HandleProgress(roadmap, itemId).phases;
    forall p | 0 <= p < |once| ensures EditPhase(once[p], ToggleEdit(itemId)) == roadmap.phases[p] {
      assert EditItems(once[p].items, ToggleEdit(itemId)) == roadmap.phases[p].items;
    }
    assert EditPhases(once, ToggleEdit(itemId)) == roadmap.phases;
  }

  /**
   * In flattened order, exactly the items with the id change, and only in
   * status (pending and completed swap); every other item is unchanged.
   */
  lemma HandleProgressSpec(roadmap: RoadmapData, itemId: string)
    ensures var before, after := Flatten(roadmap.phases), Flatten(HandleProgress(roadmap, itemId).phases);
      && |after| == |before|
      && (forall i :: 0 <= i < |before| && before[i].id != itemId ==> after[i] == before[i])
      && (forall i :: 0 <= i < |before| && before[i].id == itemId ==>
            after[i].status != before[i].status && after[i].(status := before[i].status) == before[i])
    ensures var r := HandleProgress(roadmap, itemId);
      && r.(phases := roadmap.phases) == roadmap
      && |r.phases| == |roadmap.phases|
      && forall p :: 0 <= p < |r.phases| ==>
           && r.phases[p].(items := roadmap.phases[p].items) == roadmap.phases[p]
           && |r.phases[p].items| == |roadmap.phases[p].items|
  {
    FlattenEdit(roadmap.phases, ToggleEdit(itemId));
  }

  /** No lock check: a locked item is completed by a toggle, and its completion time is not stamped. */
  lemma HandleProgressIgnoresLock(roadmap: RoadmapData, k: nat)
    requires k < |Flatten(roadmap.phases)| && IsLocked(Flatten(roadmap.phases), Flatten(roadmap.phases)[k])
    ensures var item := Flatten(roadmap.phases)[k];
      var after := Flatten(HandleProgress(roadmap, item.id).phases);
      |after| == |Flatten(roadmap.phases)| && after[k].status == Completed && after[k].completedAt == item.completedAt
  {
    FlattenEdit(roadmap.phases, ToggleEdit(Flatten(roadmap.phases)[k].id));
  }

  /** An id that no item carries changes nothing. */
  lemma ToggleAbsent(flat: seq<RoadmapItem>, itemId: string)
    requires forall j :: 0 <= j < |flat| ==> flat[j].id != itemId
    ensures EditItems(flat, ToggleEdit(itemId)) == flat
  {
  }

  /**
   * When no other item shares item k's id (as with distinct ids), a toggle
   * of that id moves the completed count by exactly one: up for a pending
   * item, down for a completed one.
   */
  lemma ToggleCount(flat: seq<RoadmapItem>, k: nat)
    requires k < |flat|
    requires forall j :: 0 <= j < |flat| && j != k ==> flat[j].id != flat[k].id
    ensures CompletedCount(EditItems(flat, ToggleEdit(flat[k].id)))
      == CompletedCount(flat) + (if flat[k].status == Pending then 1 else -1)
  {
    var flat' := EditItems(flat, ToggleEdit(flat[k].id));
    CountAround(flat, k);
    CountAround(flat', k);
    SameAround(flat, flat', k);
  }

  /** The completed count split around position k. */
  lemma CountAround(flat: seq<RoadmapItem>, k: nat)
    requires k < |flat|
    ensures CompletedCount(flat)
      == CompletedCount(flat[..k]) + (if flat[k].status == Completed then 1 else 0) + CompletedCount(flat[k + 1..])
  {
    SplitAround(flat, k);
    CompletedCountAppend(flat[..k] + [flat[k]], flat[k + 1..]);
    CompletedCountAppend(flat[..k], [flat[k]]);
    assert [flat[k]][1..] == [];
  }

  lemma SplitAround<T>(s: seq<T>, k: nat)
    requires k < |s|
    ensures s == s[..k] + [s[k]] + s[k + 1..]
  {
  }

  /** Sequences that agree away from position k agree on both sides of it. */
  lemma SameAround<T>(s: seq<T>, t: seq<T>, k: nat)
    requires k < |s| == |t|
    requires forall j :: 0 <= j < |s| && j != k ==> s[j] == t[j]
    ensures s[..k] == t[..k] && s[k + 1..] == t[k + 1..]
  {
    var a, b := s[k + 1..], t[k + 1..];
    assert forall j :: 0 <= j < |a| ==> a[j] == b[j];
  }

  /** With distinct ids no other item shares an item's id. */
  lemma DistinctOthers(flat: seq<RoadmapItem>, k: nat)
    requires k < |flat| && DistinctIds(flat)
    ensures forall j :: 0 <= j < |flat| && j != k ==> flat[j].id != flat[k].id
  {
  }

  // ---------------------------------------------------------------- counting

  /** The progress effect's nested loops: count all items and the completed ones, then round. */
  method CountProgress(phases: seq<Phase>) returns (progress: nat)
    ensures progress == CompletionPercentage(Flatten(phases))
  {
    var total := 0;
    var completed := 0;
    var p := 0;
    while p < |phases|
      invariant 0 <= p <= |phases|
      invariant total == |Flatten(phases[..p])| && completed == CompletedCount(Flatten(phases[..p]))
    {
      var items := phases[p].items;
      var i := 0;
      while i < |items|
        invariant 0 <= i <= |items|
        invariant total == |Flatten(phases[..p])| + i
        invariant completed == CompletedCount(Flatten(phases[..p])) + CompletedCount(items[..i])
      {
        assert items[..i + 1] == items[..i] + [items[i]];
        CompletedCountAppend(items[..i], [items[i]]);
        total := total + 1;
        if items[i].status == Completed {
          completed := completed + 1;
        }
        i := i + 1;
      }
      assert items[..i] == items;
      FlattenSnoc(phases, p);
      CompletedCountAppend(Flatten(phases[..p]), items);
      p := p + 1;
    }
    assert phases[..p] == phases;
    progress := if total == 0 then 0 else RoundPercent(completed, total);
  }

  /** A career's card on the career screen. */
  datatype CareerStat = CareerStat(progress: nat, daysLeft: int)

  /** The stored roadmap's phases for a career, none when nothing is stored. */
  function StoredPhases(items: Items, userId: string, careerId: string): seq<Phase> {
    var r := RoadmapIn(items, userId, careerId);
    if r.Some? then r.value.phases else []
  }

  function StatOf(items: Items, userId: string, careerId: string): CareerStat {
    var phases := StoredPhases(items, userId, careerId);
    CareerStat(CompletionPercentage(Flatten(phases)), PendingWork(Flatten(phases)))
  }

  /** The statistics after visiting the first `n` enrolments in order, a later duplicate overwriting. */
  function StatsOf(items: Items, userId: string, careers: seq<CareerEnrollment>): map<string, CareerStat>
    decreases |careers|
  {
    if |careers| == 0 then map[]
    else
      var last := careers[|careers| - 1];
      StatsOf(items, userId, careers[..|careers| - 1])[last.careerId := StatOf(items, userId, last.careerId)]
  }

  /** The `careerStats` effect: one entry per active career, read from the store. */
  method CareerStats(store: LocalStore, user: UserProfile) returns (stats: map<string, CareerStat>)
    ensures stats == StatsOf(store.items, user.id, user.activeCareers)
  {
    stats := map[];
    var n := 0;
    while n < |user.activeCareers|
      invariant 0 <= n <= |user.activeCareers|
      invariant stats == StatsOf(store.items, user.id, user.activeCareers[..n])
    {
      var c := user.activeCareers[n];
      var r := store.GetRoadmap(user.id, c.careerId);
      var phases := if r.Some? then r.value.phases else [];
      var daysLeft := CalculateRemainingDays(phases);
      var progress := CountProgress(phases);
      assert user.activeCareers[..n + 1][..n] == user.activeCareers[..n];
      stats := stats[c.careerId := CareerStat(progress, daysLeft)];
      n := n + 1;
    }
    assert user.activeCareers[..n] == user.activeCareers;
  }

  /**
   * There is exactly one entry per distinct career id; each holds that
   * career's stored progress (within 0..100) and remaining work, and a
   * career without a stored roadmap shows 0 and 0.
   */
  lemma StatsOfSpec(items: Items, userId: string, careers: seq<CareerEnrollment>)
    ensures StatsOf(items, userId, careers).Keys == set c | c in careers :: c.careerId
    ensures forall c :: c in careers ==> StatsOf(items, userId, careers)[c.careerId] == StatOf(items, userId, c.careerId)
    ensures forall id :: id in StatsOf(items, userId, careers) ==> StatsOf(items, userId, careers)[id].progress <= 100
    ensures forall c :: c in careers && RoadmapIn(items, userId, c.careerId).None? ==>
      StatsOf(items, userId, careers)[c.careerId] == CareerStat(0, 0)
  {
    StatsOfKeys(items, userId, careers);
    StatsOfValues(items, userId, careers);
    var stats := StatsOf(items, userId, careers);
    forall id | id in stats ensures stats[id].progress <= 100 {
      var c :| c in careers && c.careerId == id;
      StatOfSpec(items, userId, id);
    }
    forall c | c in careers && RoadmapIn(items, userId, c.careerId).None?
      ensures stats[c.careerId] == CareerStat(0, 0)
    {
      StatOfSpec(items, userId, c.careerId);
    }
  }

  /** One career's card: progress within 0..100, and 0 and 0 without a stored roadmap. */
  lemma StatOfSpec(items: Items, userId: string, careerId: string)
    ensures StatOf(items, userId, careerId).progress <= 100
    ensures RoadmapIn(items, userId, careerId).None? ==> StatOf(items, userId, careerId) == CareerStat(0, 0)
  {
    CompletionPercentageBounds(Flatten(StoredPhases(items, userId, careerId)));
  }

  lemma {:induction false} StatsOfKeys(items: Items, userId: string, careers: seq<CareerEnrollment>)
    ensures StatsOf(items, userId, careers).Keys == set c | c in careers :: c.careerId
    decreases |careers|
  {
    if |careers| > 0 {
      var init := careers[..|careers| - 1];
      var last := careers[|careers| - 1];
      StatsOfKeys(items, userId, init);
      assert careers == init + [last];
      assert (set c | c in careers :: c.careerId) == (set c | c in init :: c.careerId) + {last.careerId};
    }
  }

  lemma {:induction false} StatsOfValues(items: Items, userId: string, careers: seq<CareerEnrollment>)
    ensures forall c :: c in careers ==>
      c.careerId in StatsOf(items, userId, careers) && StatsOf(items, userId, careers)[c.careerId] == StatOf(items, userId, c.careerId)
    decreases |careers|
  {
    if |careers| > 0 {
      var init := careers[..|careers| - 1];
      var last := careers[|careers| - 1];
      StatsOfValues(items, userId, init);
      assert careers == init + [last];
    }
  }

  // ---------------------------------------------------------------- calendar days and pacing

  function Max0(n: int): int { if n < 0 then 0 else n }

  /** The days from today to the date, both included; 0 once the date has passed. */
  function DaysLeftUntil(civilDay: (int, int, int) -> int, date: Ymd, today: int): nat {
    Max0(EndDay(civilDay, date) - today + 1)
  }

  /** `user.activeCareers.find(c => c.careerId === careerId)`. */
  function FindEnrollment(careers: seq<CareerEnrollment>, careerId: string): (r: Option<CareerEnrollment>)
    ensures r.None? <==> forall i :: 0 <= i < |careers| ==> careers[i].careerId != careerId
    ensures r.Some? ==> r.value in careers && r.value.careerId == careerId
    ensures r.Some? ==> exists j :: (0 <= j < |careers| && r.value == careers[j]
      && forall i :: 0 <= i < j ==> careers[i].careerId != careerId)
    decreases |careers|
  {
    if |careers| == 0 then None
    else if careers[0].careerId == careerId then Some(careers[0])
    else
      var r := FindEnrollment(careers[1..], careerId);
      assert forall i :: 1 <= i < |careers| ==> careers[i] == careers[1..][i - 1];
      assert r.Some? ==> exists j :: (0 <= j < |careers| && r.value == careers[j]
        && forall i :: 0 <= i < j ==> careers[i].careerId != careerId)
      by {
        if r.Some? {
          var j :| 0 <= j < |careers[1..]| && r.value == careers[1..][j]
            && forall i :: 0 <= i < j ==> careers[1..][i].careerId != careerId;
          assert r.value == careers[j + 1];
        }
      }
      r
  }

  /**
   * `calendarDaysRemaining`: 0 without a target date; otherwise the days
   * from today to the target, both included, never below 0. The first three
   * parts at '-' are read; `None` is NaN (fewer than three parts or a part
   * that is not a number). Both instants are noon, so the day difference is
   * the difference of calendar day numbers.
   */
  function CalendarDaysRemaining(details: Option<CareerEnrollment>, today: int, civilDay: (int, int, int) -> int): (r: Option<int>)
    ensures details.None? || details.value.targetCompletionDate == "" ==> r == Some(0)
    ensures r.Some? ==> r.value >= 0
  {
    if details.None? || details.value.targetCompletionDate == "" then Some(0)
    else
      var parts := Split(details.value.targetCompletionDate, '-');
      if |parts| < 3 then None
      else
        var date := DateNumbers(parts);
        if date.None? then None else Some(DaysLeftUntil(civilDay, date.value, today))
  }

  /**
   * For a well-formed date the calendar count is the day difference plus
   * one when the target is today or later and 0 when it has passed, while
   * the roadmap generator's length for the same date is never below 1:
   * the two agree on future dates and differ on past ones.
   */
  lemma CalendarVersusTotalDays(e: CareerEnrollment, date: Ymd, today: int, civilDay: (int, int, int) -> int)
    requires e.targetCompletionDate != "" && |Split(e.targetCompletionDate, '-')| == 3
    requires DateNumbers(Split(e.targetCompletionDate, '-')) == Some(date)
    ensures var diff := EndDay(civilDay, date) - today;
      && CalendarDaysRemaining(Some(e), today, civilDay) == Some(if diff >= 0 then diff + 1 else 0)
      && TotalDays(e.targetCompletionDate, today, civilDay) == Some(if diff >= 0 then diff + 1 else 1)
  {
    TotalDaysOfParts(e.targetCompletionDate, today, civilDay, date);
    DaysLeftVersusInclusive(civilDay, date, today);
  }

  lemma DaysLeftVersusInclusive(civilDay: (int, int, int) -> int, date: Ymd, today: int)
    ensures var diff := EndDay(civilDay, date) - today;
      && DaysLeftUntil(civilDay, date, today) == (if diff >= 0 then diff + 1 else 0)
      && InclusiveDays(diff) == (if diff >= 0 then diff + 1 else 1)
  {
  }

  datatype Pace = Ahead | Behind | OnTrack

  /** The pacing banner: status, day count and message. */
  datatype Pacing = Pacing(status: Pace, days: nat, message: string)

  /**
   * `pacing`: the calendar days left minus the work days left. A NaN
   * calendar count (`None`) fails both comparisons and reads as on track.
   */
  function PacingOf(calendar: Option<int>, workDaysLeft: int): Pacing {
    if calendar.None? then Pacing(OnTrack, 0, "On track")
    else
      var diff := calendar.value - workDaysLeft;
      if diff > 0 then Pacing(Ahead, diff, Decimal(diff) + " days ahead")
      else if diff < 0 then Pacing(Behind, -diff, Decimal(-diff) + " days behind")
      else Pacing(OnTrack, 0, "On track")
  }

  /**
   * The verdict reconstructs the difference: ahead by d means the calendar
   * exceeds the work by d > 0, behind by d means it falls short by d > 0,
   * on track means they are equal (or the calendar count is NaN).
   */
  lemma PacingSpec(calendar: Option<int>, workDaysLeft: int)
    ensures var r := PacingOf(calendar, workDaysLeft);
      && (r.status == Ahead <==> calendar.Some? && calendar.value > workDaysLeft)
      && (r.status == Behind <==> calendar.Some? && calendar.value < workDaysLeft)
      && (r.status == Ahead ==> r.days > 0 && calendar.value == workDaysLeft + r.days)
      && (r.status == Behind ==> r.days > 0 && calendar.value == workDaysLeft - r.days)
      && (r.status == OnTrack ==> r.days == 0 && (calendar.Some? ==> calendar.value == workDaysLeft))
  {
  }

  lemma PacingExamples()
    ensures PacingOf(Some(15), 10).status == Ahead && PacingOf(Some(15), 10).days == 5
    ensures PacingOf(Some(10), 10) == Pacing(OnTrack, 0, "On track")
    ensures PacingOf(Some(4), 10).status == Behind && PacingOf(Some(4), 10).days == 6
    ensures PacingOf(None, 10) == Pacing(OnTrack, 0, "On track")
  {
  }

  // ---------------------------------------------------------------- career list

  /** `activeCareers.filter(c => c.careerId !== careerId)`. */
  function WithoutCareer(careers: seq<CareerEnrollment>, careerId: string): seq<CareerEnrollment>
    decreases |careers|
  {
    if |careers| == 0 then []
    else (if careers[0].careerId != careerId then [careers[0]] else []) + WithoutCareer(careers[1..], careerId)
  }

  /** The filter keeps exactly the entries with another id, and keeps everything when no entry has the id. */
  lemma {:induction false} WithoutCareerSpec(careers: seq<CareerEnrollment>, careerId: string)
    ensures forall c :: c in WithoutCareer(careers, careerId) <==> c in careers && c.careerId != careerId
    ensures (forall i :: 0 <= i < |careers| ==> careers[i].careerId != careerId) ==> WithoutCareer(careers, careerId) == careers
    decreases |careers|
  {
    if |careers| > 0 {
      WithoutCareerSpec(careers[1..], careerId);
      assert careers == [careers[0]] + careers[1..];
    }
  }

  /** The filter distributes over concatenation, and keeps a single entry exactly when its id differs. */
  lemma {:induction false} WithoutCareerAppend(a: seq<CareerEnrollment>, b: seq<CareerEnrollment>, careerId: string)
    ensures WithoutCareer(a + b, careerId) == WithoutCareer(a, careerId) + WithoutCareer(b, careerId)
    ensures |a| == 1 ==> WithoutCareer(a, careerId) == (if a[0].careerId != careerId then a else [])
    decreases |a|
  {
    if |a| == 0 {
      assert a + b == b;
    } else {
      assert (a + b)[0] == a[0] && (a + b)[1..] == a[1..] + b;
      calc {
        WithoutCareer(a + b, careerId);
        (if a[0].careerId != careerId then [a[0]] else []) + WithoutCareer(a[1..] + b, careerId);
        { WithoutCareerAppend(a[1..], b, careerId); }
        (if a[0].careerId != careerId then [a[0]] else []) + (WithoutCareer(a[1..], careerId) + WithoutCareer(b, careerId));
        WithoutCareer(a, careerId) + WithoutCareer(b, careerId);
      }
    }
  }

  /** The first entry the filter keeps is the first entry with another id. */
  lemma {:induction false} WithoutCareerFirst(careers: seq<CareerEnrollment>, careerId: string, j: nat)
    requires j < |careers| && careers[j].careerId != careerId
    requires forall i :: 0 <= i < j ==> careers[i].careerId == careerId
    ensures |WithoutCareer(careers, careerId)| > 0 && WithoutCareer(careers, careerId)[0] == careers[j]
    decreases j
  {
    if j > 0 {
      WithoutCareerFirst(careers[1..], careerId, j - 1);
    }
  }

  /** The current career names one of the active careers, or is unset. */
  predicate CurrentValid(user: UserProfile) {
    user.currentCareerId.None? || exists c :: c in user.activeCareers && c.careerId == user.currentCareerId.value
  }

  /**
   * `handleDeleteCareer`: drop the entries with the id; when it was the
   * current career, the first remaining entry becomes current (or none is).
   * No id (null or "") changes nothing.
   */
  function DeleteCareer(user: UserProfile, careerToDelete: Option<string>): UserProfile {
    if careerToDelete.None? || careerToDelete.value == "" then user
    else
      var id := careerToDelete.value;
      var remaining := WithoutCareer(user.activeCareers, id);
      var next :=
        if user.currentCareerId == Some(id) then (if |remaining| > 0 then Some(remaining[0].careerId) else None)
        else user.currentCareerId;
      user.(activeCareers := remaining, currentCareerId := next)
  }

  /**
   * Deleting removes exactly the entries with that id; the current career
   * moves to the first remaining entry (or none) only when it was the one
   * deleted; the rest of the profile is unchanged; a current career that
   * named an active career still does.
   */
  lemma DeleteCareerSpec(user: UserProfile, id: string)
    requires id != ""
    ensures var r := DeleteCareer(user, Some(id));
      && (forall c :: c in r.activeCareers <==> c in user.activeCareers && c.careerId != id)
      && (user.currentCareerId == Some(id) && |r.activeCareers| > 0 ==> r.currentCareerId == Some(r.activeCareers[0].careerId))
      && (user.currentCareerId == Some(id) && |r.activeCareers| == 0 ==> r.currentCareerId.None?)
      && (user.currentCareerId != Some(id) ==> r.currentCareerId == user.currentCareerId)
      && (forall j :: 0 <= j < |user.activeCareers| && user.activeCareers[j].careerId != id
            && (forall i :: 0 <= i < j ==> user.activeCareers[i].careerId == id)
            && user.currentCareerId == Some(id)
            ==> r.currentCareerId == Some(user.activeCareers[j].careerId))
      && (user.currentCareerId == Some(id) && (forall i :: 0 <= i < |user.activeCareers| ==> user.activeCareers[i].careerId == id) ==>
            r.currentCareerId.None?)
      && r.(activeCareers := user.activeCareers, currentCareerId := user.currentCareerId) == user
      && (CurrentValid(user) ==> CurrentValid(r))
    ensures DeleteCareer(user, None) == user && DeleteCareer(user, Some("")) == user
  {
    WithoutCareerSpec(user.activeCareers, id);
    var r := DeleteCareer(user, Some(id));
    forall j | 0 <= j < |user.activeCareers| && user.activeCareers[j].careerId != id
      && (forall i :: 0 <= i < j ==> user.activeCareers[i].careerId == id)
      ensures |r.activeCareers| > 0 && r.activeCareers[0] == user.activeCareers[j]
    {
      WithoutCareerFirst(user.activeCareers, id, j);
    }
    if CurrentValid(user) && r.currentCareerId.Some? {
      if user.currentCareerId == Some(id) {
        assert r.activeCareers[0] in r.activeCareers;
      } else {
        var c :| c in user.activeCareers && c.careerId == user.currentCareerId.value;
        assert c in r.activeCareers;
      }
    }
  }

  /** `handleDateUpdateWithoutAI`: the entries for `careerId` get the new target date. */
  function UpdateTargetDate(user: UserProfile, careerId: string, newDate: string): UserProfile {
    var cs := user.activeCareers;
    user.(activeCareers := seq(|cs|, i requires 0 <= i < |cs| =>
      if cs[i].careerId == careerId then cs[i].(targetCompletionDate := newDate) else cs[i]))
  }

  /**
   * A date edit changes only the target date of the entries for the career,
   * nothing else in the profile, and the career's details then show the new date.
   */
  lemma UpdateTargetDateSpec(user: UserProfile, careerId: string, newDate: string)
    ensures var r := UpdateTargetDate(user, careerId, newDate);
      && |r.activeCareers| == |user.activeCareers|
      && (forall i :: 0 <= i < |r.activeCareers| ==>
            r.activeCareers[i].(targetCompletionDate := user.activeCareers[i].targetCompletionDate) == user.activeCareers[i]
            && (user.activeCareers[i].careerId == careerId ==> r.activeCareers[i].targetCompletionDate == newDate)
            && (user.activeCareers[i].careerId != careerId ==> r.activeCareers[i] == user.activeCareers[i]))
      && r.(activeCareers := user.activeCareers) == user
      && (FindEnrollment(user.activeCareers, careerId).Some? ==>
            FindEnrollment(r.activeCareers, careerId).Some?
            && FindEnrollment(r.activeCareers, careerId).value.targetCompletionDate == newDate)
  {
    var r := UpdateTargetDate(user, careerId, newDate);
    if FindEnrollment(user.activeCareers, careerId).Some? {
      var e := FindEnrollment(r.activeCareers, careerId);
      var i :| 0 <= i < |user.activeCareers| && user.activeCareers[i].careerId == careerId;
      assert r.activeCareers[i].careerId == careerId;
      var j :| 0 <= j < |r.activeCareers| && r.activeCareers[j] == e.value;
    }
  }

  // ---------------------------------------------------------------- practice filters

  /** The search test of both practice lists: the lower-cased question contains the lower-cased search. */
  predicate MatchesSearch(question: string, search: string) {
    Contains(Lower(question), Lower(search))
  }

  /** A practice question passes the topic filter (when a topic is selected) and the search (when one is typed). */
  predicate PracticeMatch(q: PracticeQuestion, selectedTopic: Option<string>, search: string) {
    (selectedTopic.None? || selectedTopic.value == "" || q.topic == selectedTopic.value)
    && (search == "" || MatchesSearch(q.question, search))
  }

  /** `filteredPracticeQuestions`: the two filters in turn, which keep the questions passing both, in order. */
  function FilterPractice(bank: seq<PracticeQuestion>, selectedTopic: Option<string>, search: string): (r: seq<PracticeQuestion>)
    ensures |r| <= |bank|
    decreases |bank|
  {
    if |bank| == 0 then []
    else (if PracticeMatch(bank[0], selectedTopic, search) then [bank[0]] else []) + FilterPractice(bank[1..], selectedTopic, search)
  }

  /**
   * The filtered list holds exactly the bank's questions of the selected
   * topic that match the search; with no topic and no search it is the
   * whole bank; the search ignores ASCII case.
   */
  lemma {:induction false} FilterPracticeSpec(bank: seq<PracticeQuestion>, selectedTopic: Option<string>, search: string)
    ensures forall q :: q in FilterPractice(bank, selectedTopic, search) <==> q in bank && PracticeMatch(q, selectedTopic, search)
    ensures FilterPractice(bank, None, "") == bank
    ensures FilterPractice(bank, selectedTopic, Lower(search)) == FilterPractice(bank, selectedTopic, search)
    decreases |bank|
  {
    if |bank| > 0 {
      FilterPracticeSpec(bank[1..], selectedTopic, search);
      assert bank == [bank[0]] + bank[1..];
      LowerIdempotent(search);
      LowerEmpty(search);
    }
  }

  /** The practice filter distributes over concatenation, and keeps a single question exactly when it matches. */
  lemma {:induction false} FilterPracticeAppend(a: seq<PracticeQuestion>, b: seq<PracticeQuestion>, selectedTopic: Option<string>, search: string)
    ensures FilterPractice(a + b, selectedTopic, search) == FilterPractice(a, selectedTopic, search) + FilterPractice(b, selectedTopic, search)
    ensures |a| == 1 ==> FilterPractice(a, selectedTopic, search) == (if PracticeMatch(a[0], selectedTopic, search) then a else [])
    decreases |a|
  {
    if |a| == 0 {
      assert a + b == b;
    } else {
      assert (a + b)[0] == a[0] && (a + b)[1..] == a[1..] + b;
      calc {
        FilterPractice(a + b, selectedTopic, search);
        (if PracticeMatch(a[0], selectedTopic, search) then [a[0]] else []) + FilterPractice(a[1..] + b, selectedTopic, search);
        { FilterPracticeAppend(a[1..], b, selectedTopic, search); }
        (if PracticeMatch(a[0], selectedTopic, search) then [a[0]] else [])
          + (FilterPractice(a[1..], selectedTopic, search) + FilterPractice(b, selectedTopic, search));
        FilterPractice(a, selectedTopic, search) + FilterPractice(b, selectedTopic, search);
      }
    }
  }

  lemma LowerEmpty(s: string)
    ensures Lower(s) == "" <==> s == ""
  {
  }

  /** The search filter of the interview list. */
  function FilterInterviews(qs: seq<InterviewQuestion>, search: string): (r: seq<InterviewQuestion>)
    ensures forall q :: q in r <==> q in qs && MatchesSearch(q.question, search)
    decreases |qs|
  {
    if |qs| == 0 then []
    else
      var rest := FilterInterviews(qs[1..], search);
      assert forall q :: q in qs <==> q == qs[0] || q in qs[1..];
      (if MatchesSearch(qs[0].question, search) then [qs[0]] else []) + rest
  }

  /** The interview search distributes over concatenation, and keeps a single question exactly when it matches. */
  lemma {:induction false} FilterInterviewsAppend(a: seq<InterviewQuestion>, b: seq<InterviewQuestion>, search: string)
    ensures FilterInterviews(a + b, search) == FilterInterviews(a, search) + FilterInterviews(b, search)
    ensures |a| == 1 ==> FilterInterviews(a, search) == (if MatchesSearch(a[0].question, search) then a else [])
    decreases |a|
  {
    if |a| == 0 {
      assert a + b == b;
    } else {
      assert (a + b)[0] == a[0] && (a + b)[1..] == a[1..] + b;
      calc {
        FilterInterviews(a + b, search);
        (if MatchesSearch(a[0].question, search) then [a[0]] else []) + FilterInterviews(a[1..] + b, search);
        { FilterInterviewsAppend(a[1..], b, search); }
        (if MatchesSearch(a[0].question, search) then [a[0]] else [])
          + (FilterInterviews(a[1..], search) + FilterInterviews(b, search));
        FilterInterviews(a, search) + FilterInterviews(b, search);
      }
    }
  }

  /** `Object.values(bank).flat()`: every company's questions, one company after another. */
  method AllInterviews(bank: map<string, seq<InterviewQuestion>>) returns (all: seq<InterviewQuestion>)
    ensures forall q :: q in all <==> exists company :: company in bank && q in bank[company]
  {
    all := [];
    var companies := bank.Keys;
    while companies != {}
      invariant companies <= bank.Keys
      invariant forall q :: q in all <==> exists company :: company in bank && company !in companies && q in bank[company]
      decreases |companies|
    {
      var company :| company in companies;
      all := all + bank[company];
      companies := companies - {company};
    }
  }

  /**
   * `filteredInterviewQuestions`: for "All" every company's questions, else
   * the selected company's (none for an unknown company); then the search.
   */
  method FilteredInterviews(bank: map<string, seq<InterviewQuestion>>, companyFilter: string, search: string)
    returns (qs: seq<InterviewQuestion>)
    ensures companyFilter != "All" ==>
      qs == (var pool := if companyFilter in bank then bank[companyFilter] else [];
             if search == "" then pool else FilterInterviews(pool, search))
    ensures companyFilter == "All" ==>
      forall q :: q in qs <==> (exists company :: company in bank && q in bank[company]) && (search == "" || MatchesSearch(q.question, search))
  {
    var pool: seq<InterviewQuestion>;
    if companyFilter == "All" {
      pool := AllInterviews(bank);
    } else {
      pool := if companyFilter in bank then bank[companyFilter] else [];
    }
    if search != "" {
      qs := FilterInterviews(pool, search);
    } else {
      qs := pool;
    }
  }

  /** `toggleAnswerReveal`: show a hidden answer, hide a shown one. */
  function ToggleAnswerReveal(visible: set<string>, id: string): set<string> {
    if id in visible then visible - {id} else visible + {id}
  }

  /** The toggle flips the id's visibility, leaves every other answer alone, and undoes itself. */
  lemma ToggleAnswerRevealSpec(visible: set<string>, id: string)
    ensures (id in ToggleAnswerReveal(visible, id)) <==> id !in visible
    ensures forall other :: other != id ==> (other in ToggleAnswerReveal(visible, id) <==> other in visible)
    ensures ToggleAnswerReveal(ToggleAnswerReveal(visible, id), id) == visible
  {
  }

  // ---------------------------------------------------------------- daily challenge

  datatype QuizState = Loading | Active | QuizCompleted | AlreadyDone

  /** What the knowledge-batch generator gives the gate: a failure, a batch without a quiz, or a quiz. */
  datatype Generated = GenerationFailed | NoQuiz | GeneratedQuiz(quiz: DailyQuizItem)

  predicate DoneToday(details: Option<CareerEnrollment>, today: string) {
    details.Some? && details.value.lastQuizDate == Some(today)
  }

  /** The gate's final state: done today, else the cached quiz, else the generated one, else nothing to do. */
  function GateState(details: Option<CareerEnrollment>, today: string, cached: Option<DailyQuizItem>, generated: Generated): QuizState {
    if DoneToday(details, today) then AlreadyDone
    else if cached.Some? then Active
    else if generated.GeneratedQuiz? then Active
    else AlreadyDone
  }

  /** The quiz is shown exactly when it was not answered today and there is a cached or generated quiz; a failed generation is like an empty one. */
  lemma GateStateSpec(details: Option<CareerEnrollment>, today: string, cached: Option<DailyQuizItem>, generated: Generated)
    ensures GateState(details, today, cached, generated) in {Active, AlreadyDone}
    ensures GateState(details, today, cached, generated) == Active <==>
      !DoneToday(details, today) && (cached.Some? || generated.GeneratedQuiz?)
    ensures GateState(details, today, cached, GenerationFailed) == GateState(details, today, cached, NoQuiz)
  {
  }

  /** Mark today's quiz as taken on the career's entries. */
  function StampQuizDate(careers: seq<CareerEnrollment>, careerId: string, today: string): (r: seq<CareerEnrollment>)
    ensures |r| == |careers|
  {
    seq(|careers|, i requires 0 <= i < |careers| =>
      if careers[i].careerId == careerId then careers[i].(lastQuizDate := Some(today)) else careers[i])
  }

  /** The profile after answering: the date stamped; a right answer adds one to the streak and 10 XP, a wrong one resets the streak. */
  function AnsweredUser(user: UserProfile, careerId: string, today: string, isRight: bool): UserProfile {
    var careers := StampQuizDate(user.activeCareers, careerId, today);
    if isRight then user.(activeCareers := careers, streak := user.streak + 1, xp := user.xp + 10)
    else user.(activeCareers := careers, streak := 0)
  }

  /**
   * A right answer raises the streak by one and XP by 10; a wrong one sets
   * the streak to 0 and keeps XP; in both cases only the career's entries
   * change, and only in their last quiz date, which becomes today.
   */
  lemma AnsweredUserSpec(user: UserProfile, careerId: string, today: string, isRight: bool)
    ensures var r := AnsweredUser(user, careerId, today, isRight);
      && (isRight ==> r.streak == user.streak + 1 && r.xp == user.xp + 10)
      && (!isRight ==> r.streak == 0 && r.xp == user.xp)
      && r.id == user.id && r.username == user.username && r.currentCareerId == user.currentCareerId
      && |r.activeCareers| == |user.activeCareers|
      && (forall i :: 0 <= i < |r.activeCareers| ==>
            r.activeCareers[i].(lastQuizDate := user.activeCareers[i].lastQuizDate) == user.activeCareers[i]
            && (user.activeCareers[i].careerId == careerId ==> r.activeCareers[i].lastQuizDate == Some(today))
            && (user.activeCareers[i].careerId != careerId ==> r.activeCareers[i] == user.activeCareers[i]))
  {
  }

  /** Once answered, the gate on the same day reports the quiz as already done, whatever is cached or generated. */
  lemma AnswerThenGate(user: UserProfile, careerId: string, today: string, isRight: bool, cached: Option<DailyQuizItem>, generated: Generated)
    requires FindEnrollment(user.activeCareers, careerId).Some?
    ensures GateState(FindEnrollment(AnsweredUser(user, careerId, today, isRight).activeCareers, careerId), today, cached, generated) == AlreadyDone
  {
    assert AnsweredUser(user, careerId, today, isRight).activeCareers == StampQuizDate(user.activeCareers, careerId, today);
    StampThenFind(user.activeCareers, careerId, today);
  }

  /** After stamping, the career's entry is found and carries today's date. */
  lemma StampThenFind(careers: seq<CareerEnrollment>, careerId: string, today: string)
    requires FindEnrollment(careers, careerId).Some?
    ensures var e := FindEnrollment(StampQuizDate(careers, careerId, today), careerId);
      e.Some? && e.value.lastQuizDate == Some(today)
  {
    var stamped := StampQuizDate(careers, careerId, today);
    var i :| 0 <= i < |careers| && careers[i].careerId == careerId;
    assert stamped[i].careerId == careerId;
    var e := FindEnrollment(stamped, careerId);
    var j :| 0 <= j < |stamped| && stamped[j] == e.value;
  }

  /** The home tab's daily challenge. */
  class DailyChallenge {
    var user: UserProfile
    const careerId: string
    var dailyQuiz: Option<DailyQuizItem>
    var quizState: QuizState
    var selectedOption: Option<int>
    var isCorrect: Option<bool>

    constructor(user: UserProfile, careerId: string)
      ensures this.user == user && this.careerId == careerId
      ensures dailyQuiz.None? && quizState == Loading && selectedOption.None? && isCorrect.None?
    {
      this.user := user;
      this.careerId := careerId;
      dailyQuiz := None;
      quizState := Loading;
      selectedOption := None;
      isCorrect := None;
    }

    /**
     * The gate effect. `today` is the ISO date of the current time and
     * `generated` is what the generator returns if it is asked.
     */
    method Gate(store: LocalStore, today: string, generated: Generated)
      modifies this, store
      ensures quizState == GateState(FindEnrollment(user.activeCareers, careerId), today,
        QuizIn(old(store.items), user.id, careerId, today), generated)
      ensures user == old(user) && selectedOption == old(selectedOption) && isCorrect == old(isCorrect)
      ensures var cached := QuizIn(old(store.items), user.id, careerId, today);
        if DoneToday(FindEnrollment(user.activeCareers, careerId), today) then
          dailyQuiz == old(dailyQuiz) && store.items == old(store.items)
        else if cached.Some? then
          dailyQuiz == cached && store.items == old(store.items)
        else if generated.GeneratedQuiz? then
          dailyQuiz == Some(generated.quiz) && store.items == WithQuiz(old(store.items), user.id, careerId, today, generated.quiz)
        else
          dailyQuiz == old(dailyQuiz) && store.items == old(store.items)
    {
      var details := FindEnrollment(user.activeCareers, careerId);
      if details.Some? && details.value.lastQuizDate == Some(today) {
        quizState := AlreadyDone;
        return;
      }
      var cached := store.GetDailyQuizCache(user.id, careerId, today);
      if cached.Some? {
        dailyQuiz := cached;
        quizState := Active;
        return;
      }
      quizState := Loading;
      match generated {
        case GeneratedQuiz(quiz) =>
          dailyQuiz := Some(quiz);
          store.SaveDailyQuizCache(user.id, careerId, quiz, today);
          quizState := Active;
        case NoQuiz =>
          quizState := AlreadyDone;
        case GenerationFailed =>
          quizState := AlreadyDone;
      }
    }

    /**
     * `handleQuizAnswer`: ignored without a quiz or once an option is
     * chosen; otherwise record the choice, score it against the correct
     * index, save the updated profile and finish the challenge (the source
     * switches to completed five seconds later).
     */
    method Answer(index: int, today: string, store: LocalStore)
      modifies this, store
      ensures old(dailyQuiz).None? || old(selectedOption).Some? ==>
        user == old(user) && selectedOption == old(selectedOption) && isCorrect == old(isCorrect)
        && quizState == old(quizState) && store.items == old(store.items)
      ensures old(dailyQuiz).Some? && old(selectedOption).None? ==>
        var isRight := index == old(dailyQuiz).value.correctIndex;
        && selectedOption == Some(index) && isCorrect == Some(isRight)
        && user == AnsweredUser(old(user), careerId, today, isRight)
        && store.items == WithUser(old(store.items), user)
        && quizState == QuizCompleted
      ensures dailyQuiz == old(dailyQuiz)
    {
      if dailyQuiz.None? || selectedOption.Some? {
        return;
      }
      selectedOption := Some(index);
      var isRight := index == dailyQuiz.value.correctIndex;
      isCorrect := Some(isRight);
      var updated := AnsweredUser(user, careerId, today, isRight);
      user := updated;
      store.SaveUser(updated);
      quizState := QuizCompleted;
    }
  }
}
