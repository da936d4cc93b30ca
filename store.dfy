/**
 * The persistence layer: one string-keyed map standing for the browser's
 * local storage, holding typed records instead of JSON text. Keys are
 * built by concatenating a fixed prefix, the user id, "_" and the career
 * id. Each operation is a pure transition on the map, and the `Store`
 * class's methods are proved to perform exactly that transition.
 */
module Store {
  import opened Types
  import opened Strings

  // ---------------------------------------------------------------- keys

  const UsersKey := "pathfinder_users"
  const CurrentUserKey := "pathfinder_current_user_id"
  const CareerPrefix := "pathfinder_career_data_"
  const RoadmapPrefix := "pathfinder_roadmap_"
  const NewsPrefix := "pathfinder_news_cache_"
  const QuizPrefix := "pathfinder_daily_quiz_cache_"
  const PracticePrefix := "pathfinder_practice_data_"

  /** News older than six hours, in milliseconds, is stale. */
  const NewsTtl := 6 * 60 * 60 * 1000

  /** The prefixes of the per-user, per-career records. */
  predicate IsRecordPrefix(p: string) {
    p == CareerPrefix || p == RoadmapPrefix || p == NewsPrefix || p == QuizPrefix || p == PracticePrefix
  }

  /** `${prefix}${userId}_${careerId}`. */
  function PairKey(prefix: string, userId: string, careerId: string): string {
    prefix + userId + "_" + careerId
  }

  function CareerKey(userId: string, careerId: string): string { PairKey(CareerPrefix, userId, careerId) }
  function RoadmapKey(userId: string, careerId: string): string { PairKey(RoadmapPrefix, userId, careerId) }
  function NewsKey(userId: string, careerId: string): string { PairKey(NewsPrefix, userId, careerId) }
  function PracticeKey(userId: string, careerId: string): string { PairKey(PracticePrefix, userId, careerId) }

  /** `${prefix}${userId}_${careerId}_${date}`: the quiz key embeds the day's date. */
  function QuizKey(userId: string, careerId: string, date: string): string {
    PairKey(QuizPrefix, userId, careerId) + "_" + date
  }

  /** Keys are plain concatenations, so two different id pairs containing '_' share one key. */
  lemma KeysCollide()
    ensures CareerKey("a", "b_c") == CareerKey("a_b", "c")
    ensures RoadmapKey("a", "b_c") == RoadmapKey("a_b", "c")
  {
  }

  /** With ids free of '_', the pair key determines the pair. */
  lemma PairKeyInjective(prefix: string, u: string, c: string, u': string, c': string)
    requires '_' !in u && '_' !in c && '_' !in u' && '_' !in c'
    requires PairKey(prefix, u, c) == PairKey(prefix, u', c')
    ensures u == u' && c == c'
  {
    var a, b := u + ['_'] + c, u' + ['_'] + c';
    assert PairKey(prefix, u, c) == prefix + a;
    assert PairKey(prefix, u', c') == prefix + b;
    assert a == (prefix + a)[|prefix|..];
    assert b == (prefix + b)[|prefix|..];
    SplitJoin(u, '_', c);
    SplitJoin(u', '_', c');
    SplitNoSeparator(c, '_');
    SplitNoSeparator(c', '_');
    assert [u, c] == Split(a, '_') == Split(b, '_') == [u', c'];
  }

  // ---------------------------------------------------------------- stored records

  /** A roadmap as stored: a bare phase list written by older versions, or a full record. */
  datatype StoredRoadmap = LegacyPhases(phases: seq<Phase>) | RoadmapRecord(data: RoadmapData)

  /** A practice bank as stored; `None` is a field that is missing from the record. */
  datatype PracticeRecord = PracticeRecord(
    topics: Option<seq<string>>,
    questions: Option<seq<PracticeQuestion>>,
    interviews: Option<map<string, seq<InterviewQuestion>>>)

  datatype Value =
    | UsersValue(users: map<string, UserProfile>)
    | TextValue(text: string)
    | CareerValue(career: CareerOption)
    | RoadmapValue(roadmap: StoredRoadmap)
    | NewsValue(timestamp: int, news: seq<NewsItem>)
    | QuizValue(quiz: DailyQuizItem)
    | PracticeValue(practice: PracticeRecord)

  type Items = map<string, Value>

  // ---------------------------------------------------------------- users

  /** `getUsers`: the users table, empty when nothing is stored. */
  function UsersIn(items: Items): map<string, UserProfile> {
    if UsersKey in items && items[UsersKey].UsersValue? then items[UsersKey].users else map[]
  }

  /** `saveUser`: read the table, put the user under its id, write the table back. */
  function WithUser(items: Items, user: UserProfile): Items {
    items[UsersKey := UsersValue(UsersIn(items)[user.id := user])]
  }

  /** After saving a user, the table holds it under its id, every other user is unchanged, and no other key changes. */
  lemma WithUserSpec(items: Items, user: UserProfile)
    ensures UsersIn(WithUser(items, user)) == UsersIn(items)[user.id := user]
    ensures forall k :: k != UsersKey ==> (k in WithUser(items, user) <==> k in items)
    ensures forall k :: k != UsersKey && k in items ==> WithUser(items, user)[k] == items[k]
  {
  }

  function CurrentUserIn(items: Items): Option<string> {
    if CurrentUserKey in items && items[CurrentUserKey].TextValue? then Some(items[CurrentUserKey].text) else None
  }

  /** `setCurrentUser`: a non-empty id is written, null or "" removes the key. */
  function WithCurrentUser(items: Items, id: Option<string>): Items {
    if id.Some? && id.value != "" then items[CurrentUserKey := TextValue(id.value)] else items - {CurrentUserKey}
  }

  /** Reading the current user back gives the id that was set, and nothing after setting null or "". */
  lemma CurrentUserRoundTrip(items: Items, id: Option<string>)
    ensures id.Some? && id.value != "" ==> CurrentUserIn(WithCurrentUser(items, id)) == id
    ensures id.None? || id.value == "" ==> CurrentUserIn(WithCurrentUser(items, id)) == None
    ensures UsersIn(WithCurrentUser(items, id)) == UsersIn(items)
  {
  }

  /** The entries whose key does not contain `sub`. */
  function DropContaining(m: Items, sub: string): (r: Items)
    ensures forall k :: k in r <==> k in m && !Contains(k, sub)
    ensures forall k :: k in r ==> r[k] == m[k]
  {
    map k | k in m && !Contains(k, sub) :: m[k]
  }

  /** The deletion loop's intermediate map: keys still to visit are all kept, visited ones only without `sub`. */
  function Kept(written: Items, keys: set<string>, sub: string): Items {
    map k | k in written && (k in keys || !Contains(k, sub)) :: written[k]
  }

  lemma KeptAll(written: Items, sub: string)
    ensures Kept(written, written.Keys, sub) == written
  {
  }

  lemma KeptStep(written: Items, keys: set<string>, key: string, sub: string)
    requires key in keys && keys <= written.Keys
    ensures Kept(written, keys - {key}, sub)
      == if Contains(key, sub) then Kept(written, keys, sub) - {key} else Kept(written, keys, sub)
  {
  }

  lemma KeptNone(written: Items, sub: string)
    ensures Kept(written, {}, sub) == DropContaining(written, sub)
  {
  }

  /**
   * `deleteUser` as written: for a known user, drop it from the table,
   * then remove EVERY key that contains the id as a substring (the users
   * table included), then the current-user key. An unknown id changes nothing.
   */
  function AfterDeleteUser(items: Items, userId: string): Items {
    var users := UsersIn(items);
    if userId !in users then items
    else DropContaining(items[UsersKey := UsersValue(users - {userId})], userId) - {CurrentUserKey}
  }

  /** An unknown id changes nothing. */
  lemma DeleteUnknownUser(items: Items, userId: string)
    requires userId !in UsersIn(items)
    ensures AfterDeleteUser(items, userId) == items
  {
  }

  /** What deletion keeps: exactly the keys not containing the id (the users table counted as present), minus the current-user key. */
  lemma AfterDeleteUserKeys(items: Items, userId: string)
    requires userId in UsersIn(items)
    ensures CurrentUserKey !in AfterDeleteUser(items, userId)
    ensures forall k :: k in AfterDeleteUser(items, userId) ==> !Contains(k, userId)
    ensures forall k :: k in items && !Contains(k, userId) && k != CurrentUserKey ==> k in AfterDeleteUser(items, userId)
  {
  }

  /** Every surviving key other than the users table keeps its value. */
  lemma AfterDeleteUserValues(items: Items, userId: string)
    requires userId in UsersIn(items)
    ensures forall k :: k in AfterDeleteUser(items, userId) && k != UsersKey ==> AfterDeleteUser(items, userId)[k] == items[k]
  {
  }

  /** Unless the substring match removed it, the users table loses exactly the deleted user. */
  lemma AfterDeleteUserTable(items: Items, userId: string)
    requires userId in UsersIn(items) && !Contains(UsersKey, userId)
    ensures UsersIn(AfterDeleteUser(items, userId)) == UsersIn(items) - {userId}
  {
    TableSurvives(items, userId);
  }

  lemma TableSurvives(items: Items, userId: string)
    requires userId in UsersIn(items) && !Contains(UsersKey, userId)
    ensures UsersKey in AfterDeleteUser(items, userId)
  {
    var m := items[UsersKey := UsersValue(UsersIn(items) - {userId})];
    assert UsersKey in DropContaining(m, userId);
    assert |UsersKey| != |CurrentUserKey|;
  }

  /**
   * The substring match reaches other users: deleting `u` removes the
   * records of every user whose id merely contains `u`.
   */
  lemma DeleteUserTakesOtherUsersRecords(items: Items, u: string, v: string, careerId: string)
    requires u in UsersIn(items) && Contains(v, u)
    ensures RoadmapKey(v, careerId) !in AfterDeleteUser(items, u)
    ensures CareerKey(v, careerId) !in AfterDeleteUser(items, u)
  {
    var k := ContainsWhere(v, u);
    var rk, ck := RoadmapKey(v, careerId), CareerKey(v, careerId);
    assert rk[|RoadmapPrefix| + k..|RoadmapPrefix| + k + |u|] == v[k..k + |u|];
    ContainsAt(rk, u, |RoadmapPrefix| + k);
    assert ck[|CareerPrefix| + k..|CareerPrefix| + k + |u|] == v[k..k + |u|];
    ContainsAt(ck, u, |CareerPrefix| + k);
  }

  /** A concrete case: deleting user "ab" also deletes the roadmap of user "xaby". */
  lemma DeleteUserExample(items: Items, careerId: string)
    requires "ab" in UsersIn(items)
    ensures RoadmapKey("xaby", careerId) !in AfterDeleteUser(items, "ab")
  {
    assert "xaby"[1..3] == "ab";
    ContainsAt("xaby", "ab", 1);
    DeleteUserTakesOtherUsersRecords(items, "ab", "xaby", careerId);
  }

  /** Deleting a user whose id is a substring of the table key, such as "users", wipes the whole users table. */
  lemma DeleteUserWipesTable(items: Items, userId: string)
    requires userId in UsersIn(items) && Contains(UsersKey, userId)
    ensures UsersIn(AfterDeleteUser(items, userId)) == map[]
  {
  }

  lemma DeleteUsersExample(items: Items)
    requires "users" in UsersIn(items)
    ensures UsersIn(AfterDeleteUser(items, "users")) == map[]
  {
    assert UsersKey[11..16] == "users";
    ContainsAt(UsersKey, "users", 11);
  }

  /** The key belongs to user `userId`: it starts with a record prefix, the id and "_". */
  predicate OwnedBy(key: string, userId: string) {
    StartsWith(key, CareerPrefix + userId + "_") || StartsWith(key, RoadmapPrefix + userId + "_")
    || StartsWith(key, NewsPrefix + userId + "_") || StartsWith(key, QuizPrefix + userId + "_")
    || StartsWith(key, PracticePrefix + userId + "_")
  }

  /** The intended cascade: remove only the keys that belong to the deleted user. */
  function AfterDeleteUserScoped(items: Items, userId: string): Items {
    var users := UsersIn(items);
    if userId !in users then items
    else
      var written := items[UsersKey := UsersValue(users - {userId})];
      (map k | k in written && !OwnedBy(k, userId) :: written[k]) - {CurrentUserKey}
  }

  /** Two record prefixes agreeing at the first character after "pathfinder_" are the same prefix. */
  lemma PrefixesDiffer(p: string, q: string)
    requires IsRecordPrefix(p) && IsRecordPrefix(q)
    ensures |p| > 12 && |q| > 12
    ensures p[11] == q[11] ==> p == q
  {
  }

  /** Two '_'-free ids both followed by '_' at the start of one text are the same id. */
  lemma IdsAgree(s: string, u: string, v: string)
    requires '_' !in u && '_' !in v
    requires StartsWith(s, u + "_") && StartsWith(s, v + "_")
    ensures u == v
  {
    assert forall i :: 0 <= i < |u| ==> s[i] == u[i];
    assert forall i :: 0 <= i < |v| ==> s[i] == v[i];
    assert s[|u|] == (u + "_")[|u|] == '_';
    assert s[|v|] == (v + "_")[|v|] == '_';
  }

  /** Dropping a matched head: a text starting with a + b continues with b after a. */
  lemma StartsWithDrop(s: string, a: string, b: string)
    requires StartsWith(s, a + b)
    ensures StartsWith(s[|a|..], b)
  {
    assert s[|a|..][..|b|] == (a + b)[|a|..];
  }

  /** A key of the form prefix + v + "_" + ... never belongs to a different '_'-free user u. */
  lemma NotOwnedByOther(p: string, v: string, rest: string, u: string)
    requires IsRecordPrefix(p) && '_' !in u && '_' !in v && u != v
    ensures !OwnedBy(p + v + "_" + rest, u)
  {
    var key := p + v + "_" + rest;
    KeyHead(p, v, rest);
    forall q | IsRecordPrefix(q) ensures !StartsWith(key, q + u + "_") {
      PrefixesDiffer(p, q);
      NotOwnedVia(key, p, v, q, u);
    }
  }

  /** The key p + v + "_" + rest starts with p, then v and "_". */
  lemma KeyHead(p: string, v: string, rest: string)
    ensures StartsWith(p + v + "_" + rest, p + (v + "_"))
  {
    var key := p + v + "_" + rest;
    assert key == (p + (v + "_")) + rest;
  }

  /**
   * A text starting with prefix p, a '_'-free id v and "_" does not also start
   * with prefix q, a different '_'-free id u and "_", when prefixes are told
   * apart by their character at position 11.
   */
  lemma NotOwnedVia(key: string, p: string, v: string, q: string, u: string)
    requires '_' !in u && '_' !in v && u != v && |p| > 11 && |q| > 11
    requires p[11] == q[11] ==> p == q
    requires StartsWith(key, p + (v + "_"))
    ensures !StartsWith(key, q + u + "_")
  {
    if StartsWith(key, q + u + "_") {
      assert key[11] == (p + (v + "_"))[11] == p[11];
      assert key[11] == (q + u + "_")[11] == q[11];
      assert q + u + "_" == q + (u + "_");
      StartsWithDrop(key, p, v + "_");
      StartsWithDrop(key, q, u + "_");
      IdsAgree(key[|p|..], u, v);
    }
  }

  /**
   * The corrected cascade keeps the users table (minus the deleted user)
   * and every record of every other user, when user ids are free of '_',
   * and removes every record of the deleted user.
   */
  lemma AfterDeleteUserScopedSpec(items: Items, u: string, v: string, p: string, rest: string)
    requires u in UsersIn(items) && '_' !in u && '_' !in v && u != v && IsRecordPrefix(p)
    ensures UsersIn(AfterDeleteUserScoped(items, u)) == UsersIn(items) - {u}
    ensures p + v + "_" + rest in items ==>
      p + v + "_" + rest in AfterDeleteUserScoped(items, u)
      && AfterDeleteUserScoped(items, u)[p + v + "_" + rest] == items[p + v + "_" + rest]
    ensures p + u + "_" + rest !in AfterDeleteUserScoped(items, u)
  {
    ScopedKeepsTable(items, u);
    ScopedKeepsOthers(items, u, v, p, rest);
    ScopedDropsOwn(items, u, p, rest);
  }

  lemma ScopedKeepsTable(items: Items, u: string)
    requires u in UsersIn(items)
    ensures UsersIn(AfterDeleteUserScoped(items, u)) == UsersIn(items) - {u}
  {
    assert !OwnedBy(UsersKey, u);
    assert |UsersKey| != |CurrentUserKey|;
  }

  lemma ScopedKeepsOthers(items: Items, u: string, v: string, p: string, rest: string)
    requires u in UsersIn(items) && '_' !in u && '_' !in v && u != v && IsRecordPrefix(p)
    ensures p + v + "_" + rest in items ==>
      p + v + "_" + rest in AfterDeleteUserScoped(items, u)
      && AfterDeleteUserScoped(items, u)[p + v + "_" + rest] == items[p + v + "_" + rest]
  {
    NotOwnedByOther(p, v, rest, u);
    var key := p + v + "_" + rest;
    assert key != CurrentUserKey && key != UsersKey by {
      PrefixesDiffer(p, p);
      assert key[12] == p[12];
    }
  }

  lemma ScopedDropsOwn(items: Items, u: string, p: string, rest: string)
    requires u in UsersIn(items) && IsRecordPrefix(p)
    ensures p + u + "_" + rest !in AfterDeleteUserScoped(items, u)
  {
    KeyHead(p, u, rest);
    assert p + u + "_" == p + (u + "_");
  }

  // ---------------------------------------------------------------- career and roadmap

  function CareerIn(items: Items, userId: string, careerId: string): Option<CareerOption> {
    var k := CareerKey(userId, careerId);
    if k in items && items[k].CareerValue? then Some(items[k].career) else None
  }

  function WithCareer(items: Items, userId: string, careerId: string, career: CareerOption): Items {
    items[CareerKey(userId, careerId) := CareerValue(career)]
  }

  /** `getRoadmap`'s migration: a bare phase list gains empty recommendation lists; a record lacking internships gains an empty list. */
  function Migrate(stored: StoredRoadmap): (r: RoadmapData)
    ensures r.recommendedInternships.Some?
  {
    match stored
    case LegacyPhases(phases) => RoadmapData(phases, Some([]), Some([]))
    case RoadmapRecord(data) =>
      if data.recommendedInternships.None? then data.(recommendedInternships := Some([])) else data
  }

  /**
   * Migration keeps the phases, turns a legacy list into a record with two
   * empty lists, leaves a complete record unchanged, and is idempotent.
   */
  lemma MigrateSpec(stored: StoredRoadmap)
    ensures stored.LegacyPhases? ==> Migrate(stored).phases == stored.phases
    ensures stored.RoadmapRecord? ==> Migrate(stored).phases == stored.data.phases
    ensures stored.LegacyPhases? ==> Migrate(stored).recommendedCertificates == Some([]) && Migrate(stored).recommendedInternships == Some([])
    ensures stored.RoadmapRecord? && stored.data.recommendedInternships.Some? ==> Migrate(stored) == stored.data
    ensures stored.RoadmapRecord? ==> Migrate(stored).recommendedCertificates == stored.data.recommendedCertificates
    ensures Migrate(RoadmapRecord(Migrate(stored))) == Migrate(stored)
  {
  }

  function RoadmapIn(items: Items, userId: string, careerId: string): Option<RoadmapData> {
    var k := RoadmapKey(userId, careerId);
    if k in items && items[k].RoadmapValue? then Some(Migrate(items[k].roadmap)) else None
  }

  function WithRoadmap(items: Items, userId: string, careerId: string, roadmap: RoadmapData): Items {
    items[RoadmapKey(userId, careerId) := RoadmapValue(RoadmapRecord(roadmap))]
  }

  /**
   * Save-then-get with the same ids returns what was saved (a roadmap
   * lacking internships comes back with an empty list); saving one career
   * record does not touch the other kind.
   */
  lemma CareerRoadmapRoundTrip(items: Items, u: string, c: string, career: CareerOption, roadmap: RoadmapData)
    ensures CareerIn(WithCareer(items, u, c, career), u, c) == Some(career)
    ensures roadmap.recommendedInternships.Some? ==> RoadmapIn(WithRoadmap(items, u, c, roadmap), u, c) == Some(roadmap)
    ensures RoadmapIn(WithRoadmap(items, u, c, roadmap), u, c) == Some(roadmap.(recommendedInternships := Some(roadmap.recommendedInternships.GetOr([]))))
    ensures RoadmapIn(WithCareer(items, u, c, career), u, c) == RoadmapIn(items, u, c)
  {
    assert CareerKey(u, c)[11] != RoadmapKey(u, c)[11];
  }

  /** With '_'-free ids, saving a career for one pair leaves every other pair's career record alone. */
  lemma CareerIsolated(items: Items, u: string, c: string, u': string, c': string, career: CareerOption)
    requires '_' !in u && '_' !in c && '_' !in u' && '_' !in c' && (u, c) != (u', c')
    ensures CareerIn(WithCareer(items, u, c, career), u', c') == CareerIn(items, u', c')
  {
    if CareerKey(u, c) == CareerKey(u', c') {
      PairKeyInjective(CareerPrefix, u, c, u', c');
    }
  }

  // ---------------------------------------------------------------- news and daily quiz

  function WithNews(items: Items, userId: string, careerId: string, news: seq<NewsItem>, now: int): Items {
    items[NewsKey(userId, careerId) := NewsValue(now, news)]
  }

  /** `getNewsCache` at time `now`: the stored news unless it is more than six hours old. */
  function NewsIn(items: Items, userId: string, careerId: string, now: int): Option<seq<NewsItem>> {
    var k := NewsKey(userId, careerId);
    if k !in items || !items[k].NewsValue? then None
    else if now - items[k].timestamp > NewsTtl then None
    else Some(items[k].news)
  }

  /** News saved at t is returned at `now` exactly when now - t is at most six hours. */
  lemma NewsFreshness(items: Items, u: string, c: string, news: seq<NewsItem>, t: int, now: int)
    ensures NewsIn(WithNews(items, u, c, news, t), u, c, now) == if now - t <= 21600000 then Some(news) else None
  {
  }

  lemma NewsFreshnessExamples(items: Items, u: string, c: string, news: seq<NewsItem>, t: int)
    ensures NewsIn(WithNews(items, u, c, news, t), u, c, t + 21600000) == Some(news)
    ensures NewsIn(WithNews(items, u, c, news, t), u, c, t + 21600001) == None
  {
    NewsFreshness(items, u, c, news, t, t + 21600000);
    NewsFreshness(items, u, c, news, t, t + 21600001);
  }

  /** `saveDailyQuizCache` on the day `date` (the ISO date of the current time). */
  function WithQuiz(items: Items, userId: string, careerId: string, date: string, quiz: DailyQuizItem): Items {
    items[QuizKey(userId, careerId, date) := QuizValue(quiz)]
  }

  function QuizIn(items: Items, userId: string, careerId: string, date: string): Option<DailyQuizItem> {
    var k := QuizKey(userId, careerId, date);
    if k in items && items[k].QuizValue? then Some(items[k].quiz) else None
  }

  /** A quiz saved on date d is read back on d; a read on any other date sees what it saw before. */
  lemma QuizByDate(items: Items, u: string, c: string, d: string, d': string, quiz: DailyQuizItem)
    ensures QuizIn(WithQuiz(items, u, c, d, quiz), u, c, d) == Some(quiz)
    ensures d' != d ==> QuizIn(WithQuiz(items, u, c, d, quiz), u, c, d') == QuizIn(items, u, c, d')
  {
    if d' != d {
      var pre := PairKey(QuizPrefix, u, c) + "_";
      assert QuizKey(u, c, d) == pre + d && QuizKey(u, c, d') == pre + d';
      assert d == (pre + d)[|pre|..];
      assert d' == (pre + d')[|pre|..];
    }
  }

  // ---------------------------------------------------------------- practice bank

  /** A field of a partial update: not given, given as undefined, or given a value. */
  datatype Field<T> = Absent | Undefined | Given(value: T)

  datatype PracticeUpdate = PracticeUpdate(
    topics: Field<seq<string>>,
    questions: Field<seq<PracticeQuestion>>,
    interviews: Field<map<string, seq<InterviewQuestion>>>)

  const EmptyPractice := PracticeRecord(Some([]), Some([]), Some(map[]))

  /** One field of `{ ...existing, ...data }`: a given field replaces, an absent one keeps. */
  function Spread<T>(existing: Option<T>, field: Field<T>): Option<T> {
    match field
    case Absent => existing
    case Undefined => None
    case Given(v) => Some(v)
  }

  /** Incoming companies take the incoming list; the others keep theirs. */
  function MergeInterviews(existing: map<string, seq<InterviewQuestion>>, incoming: map<string, seq<InterviewQuestion>>): map<string, seq<InterviewQuestion>> {
    existing + incoming
  }

  /** The merge loop: copy the incoming companies one at a time over the stored ones. */
  method MergeInterviewsInto(existing: map<string, seq<InterviewQuestion>>, incoming: map<string, seq<InterviewQuestion>>)
    returns (merged: map<string, seq<InterviewQuestion>>)
    ensures merged == MergeInterviews(existing, incoming)
  {
    merged := existing;
    var keys := incoming.Keys;
    while keys != {}
      invariant keys <= incoming.Keys
      invariant merged == existing + (map k | k in incoming && k !in keys :: incoming[k])
      decreases |keys|
    {
      var key :| key in keys;
      merged := merged[key := incoming[key]];
      keys := keys - {key};
    }
    assert (map k | k in incoming && k !in keys :: incoming[k]) == incoming;
  }

  /** `savePracticeData`'s merged record. */
  function MergePractice(existing: Option<PracticeRecord>, data: PracticeUpdate): PracticeRecord {
    var base := existing.GetOr(EmptyPractice);
    PracticeRecord(
      Spread(base.topics, data.topics),
      Spread(base.questions, data.questions),
      if data.interviews.Given? then Some(MergeInterviews(base.interviews.GetOr(map[]), data.interviews.value))
      else Spread(base.interviews, data.interviews))
  }

  function PracticeIn(items: Items, userId: string, careerId: string): Option<PracticeRecord> {
    var k := PracticeKey(userId, careerId);
    if k in items && items[k].PracticeValue? then Some(items[k].practice) else None
  }

  function WithPractice(items: Items, userId: string, careerId: string, data: PracticeUpdate): Items {
    items[PracticeKey(userId, careerId) := PracticeValue(MergePractice(PracticeIn(items, userId, careerId), data))]
  }

  /**
   * Given topics and questions replace the stored ones, even when empty;
   * absent ones are kept; without a stored record the base is empty lists
   * and no companies.
   */
  lemma MergePracticeFields(existing: Option<PracticeRecord>, data: PracticeUpdate)
    ensures data.topics.Given? ==> MergePractice(existing, data).topics == Some(data.topics.value)
    ensures data.questions.Given? ==> MergePractice(existing, data).questions == Some(data.questions.value)
    ensures data.topics.Absent? ==> MergePractice(existing, data).topics == existing.GetOr(EmptyPractice).topics
    ensures data.questions.Absent? ==> MergePractice(existing, data).questions == existing.GetOr(EmptyPractice).questions
    ensures existing.None? && data == PracticeUpdate(Absent, Absent, Absent) ==> MergePractice(existing, data) == EmptyPractice
    ensures data.topics == Given([]) ==> MergePractice(existing, data).topics == Some([])
  {
  }

  /**
   * With incoming interviews the companies are the union of the stored and
   * incoming ones; incoming companies take the incoming lists and the other
   * companies keep their stored lists.
   */
  lemma MergeInterviewsSpec(existing: Option<PracticeRecord>, data: PracticeUpdate)
    requires data.interviews.Given?
    ensures var before := existing.GetOr(EmptyPractice).interviews.GetOr(map[]);
      var incoming := data.interviews.value;
      var after := MergePractice(existing, data).interviews;
      && after.Some?
      && after.value.Keys == before.Keys + incoming.Keys
      && (forall k :: k in incoming ==> after.value[k] == incoming[k])
      && (forall k :: k in before && k !in incoming ==> after.value[k] == before[k])
  {
  }

  /** Saving Google's list and then Amazon's keeps both companies. */
  lemma InterviewsAccumulate(items: Items, u: string, c: string, google: seq<InterviewQuestion>, amazon: seq<InterviewQuestion>)
    ensures var once := WithPractice(items, u, c, PracticeUpdate(Absent, Absent, Given(map["Google" := google])));
      var twice := WithPractice(once, u, c, PracticeUpdate(Absent, Absent, Given(map["Amazon" := amazon])));
      var bank := PracticeIn(twice, u, c);
      && bank.Some? && bank.value.interviews.Some?
      && "Google" in bank.value.interviews.value && bank.value.interviews.value["Google"] == google
      && "Amazon" in bank.value.interviews.value && bank.value.interviews.value["Amazon"] == amazon
  {
  }

  // ---------------------------------------------------------------- the store

  class LocalStore {
    var items: Items

    constructor(initial: Items)
      ensures items == initial
    {
      items := initial;
    }

    function GetUsers(): map<string, UserProfile>
      reads this
    {
      UsersIn(items)
    }

    method SaveUser(user: UserProfile)
      modifies this
      ensures items == WithUser(old(items), user)
    {
      var users := UsersIn(items);
      users := users[user.id := user];
      items := items[UsersKey := UsersValue(users)];
    }

    method SetCurrentUser(id: Option<string>)
      modifies this
      ensures items == WithCurrentUser(old(items), id)
    {
      if id.Some? && id.value != "" {
        items := items[CurrentUserKey := TextValue(id.value)];
      } else {
        items := items - {CurrentUserKey};
      }
    }

    function GetCurrentUserId(): Option<string>
      reads this
    {
      CurrentUserIn(items)
    }

    /** The cascade: loop over a snapshot of the keys, removing each one that contains the id. */
    method DeleteUser(userId: string)
      modifies this
      ensures items == AfterDeleteUser(old(items), userId)
    {
      var users := UsersIn(items);
      if userId in users {
        items := items[UsersKey := UsersValue(users - {userId})];
        ghost var written := items;
        var keys := items.Keys;
        KeptAll(written, userId);
        while keys != {}
          invariant keys <= written.Keys
          invariant items == Kept(written, keys, userId)
          decreases |keys|
        {
          var key :| key in keys;
          KeptStep(written, keys, key, userId);
          if Contains(key, userId) {
            items := items - {key};
          }
          keys := keys - {key};
        }
        KeptNone(written, userId);
        items := items - {CurrentUserKey};
      }
    }

    method SaveCareerData(userId: string, careerId: string, career: CareerOption)
      modifies this
      ensures items == WithCareer(old(items), userId, careerId, career)
    {
      items := items[CareerKey(userId, careerId) := CareerValue(career)];
    }

    function GetCareerData(userId: string, careerId: string): Option<CareerOption>
      reads this
    {
      CareerIn(items, userId, careerId)
    }

    method SaveRoadmap(userId: string, careerId: string, roadmap: RoadmapData)
      modifies this
      ensures items == WithRoadmap(old(items), userId, careerId, roadmap)
    {
      items := items[RoadmapKey(userId, careerId) := RoadmapValue(RoadmapRecord(roadmap))];
    }

    function GetRoadmap(userId: string, careerId: string): Option<RoadmapData>
      reads this
    {
      RoadmapIn(items, userId, careerId)
    }

    /** `now` is the current time in milliseconds. */
    method SaveNewsCache(userId: string, careerId: string, news: seq<NewsItem>, now: int)
      modifies this
      ensures items == WithNews(old(items), userId, careerId, news, now)
    {
      items := items[NewsKey(userId, careerId) := NewsValue(now, news)];
    }

    function GetNewsCache(userId: string, careerId: string, now: int): Option<seq<NewsItem>>
      reads this
    {
      NewsIn(items, userId, careerId, now)
    }

    /** `today` is the ISO date (yyyy-mm-dd) of the current time. */
    method SaveDailyQuizCache(userId: string, careerId: string, quiz: DailyQuizItem, today: string)
      modifies this
      ensures items == WithQuiz(old(items), userId, careerId, today, quiz)
    {
      items := items[QuizKey(userId, careerId, today) := QuizValue(quiz)];
    }

    function GetDailyQuizCache(userId: string, careerId: string, today: string): Option<DailyQuizItem>
      reads this
    {
      QuizIn(items, userId, careerId, today)
    }

    /** The merge: spread the update over the stored record, then copy the incoming companies one by one. */
    method SavePracticeData(userId: string, careerId: string, data: PracticeUpdate)
      modifies this
      ensures items == WithPractice(old(items), userId, careerId, data)
    {
      var existing := PracticeIn(items, userId, careerId).GetOr(EmptyPractice);
      var merged := PracticeRecord(
        Spread(existing.topics, data.topics),
        Spread(existing.questions, data.questions),
        Spread(existing.interviews, data.interviews));
      if data.interviews.Given? {
        var interviews := MergeInterviewsInto(existing.interviews.GetOr(map[]), data.interviews.value);
        merged := merged.(interviews := Some(interviews));
      }
      items := items[PracticeKey(userId, careerId) := PracticeValue(merged)];
    }

    function GetPracticeData(userId: string, careerId: string): Option<PracticeRecord>
      reads this
    {
      PracticeIn(items, userId, careerId)
    }
  }
}
