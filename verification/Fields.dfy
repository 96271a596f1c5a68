/** The statistics hash as Redis stores it: one flat map from field names to values, written by HMSET commands that
    name their fields (cache.go). Module Stats works on what getStats scans from it. */
module Fields {
  import opened Requests
  import opened Stats

  datatype Field =
    | PendingCount | DeniedCount | ApprovedCount | BannedCount | LowerDeactivated | UpperDeactivated
    | AverageTime | TotalTime | Male | Female | OtherGender | Age1 | Age2 | Age3 | Age4 | Aggregate

  function Key(f: Field): string {
    match f
    case PendingCount => "pending"
    case DeniedCount => "denied"
    case ApprovedCount => "approved"
    case BannedCount => "banned"
    case LowerDeactivated => "deactivated"
    case UpperDeactivated => "Deactivated"
    case AverageTime => "averageResponseTimeInMinutes"
    case TotalTime => "totalResponseTimeInMinutes"
    case Male => "maleCount"
    case Female => "femaleCount"
    case OtherGender => "otherGenderCount"
    case Age1 => "ageGroup1Count"
    case Age2 => "ageGroup2Count"
    case Age3 => "ageGroup3Count"
    case Age4 => "ageGroup4Count"
    case Aggregate => "AggregateStats"
  }

  /** Field names are compared character by character, capitals included. */
  lemma KeysDiffer(f: Field, g: Field)
    ensures Key(f) == Key(g) <==> f == g
  {
    var a, b := Key(f), Key(g);
    if a == b {
      assert |a| == |b| && a[0] == b[0] && a[1] == b[1] && a[3] == b[3];
      assert |a| > 8 ==> a[8] == b[8];
    }
  }

  datatype Value = Count(n: int) | Minutes(m: real) | Mean(average: Average) | Json(aggregate: AggregateStats)

  type Redis = map<string, Value>

  function Get(m: Redis, f: Field): Option<Value> {
    if Key(f) in m then Some(m[Key(f)]) else None
  }

  function CountIn(v: Option<Value>): int {
    if v.Some? && v.value.Count? then v.value.n else 0
  }

  function MinutesIn(v: Option<Value>): real {
    if v.Some? && v.value.Minutes? then v.value.m else 0.0
  }

  function MeanIn(v: Option<Value>): Average {
    if v.Some? && v.value.Mean? then v.value.average else Finite(0.0)
  }

  function JsonIn(v: Option<Value>): Option<AggregateStats> {
    if v.Some? && v.value.Json? then Some(v.value.aggregate) else None
  }

  /** What ScanStruct and the second read make of the map; an absent field is left at zero. */
  function Scan(m: Redis): Hash {
    Hash(
      Tally(CountIn(Get(m, PendingCount)), CountIn(Get(m, DeniedCount)), CountIn(Get(m, ApprovedCount)),
            CountIn(Get(m, BannedCount)), CountIn(Get(m, LowerDeactivated)), MinutesIn(Get(m, TotalTime)),
            CountIn(Get(m, Male)), CountIn(Get(m, Female)), CountIn(Get(m, OtherGender)),
            CountIn(Get(m, Age1)), CountIn(Get(m, Age2)), CountIn(Get(m, Age3)), CountIn(Get(m, Age4))),
      CountIn(Get(m, UpperDeactivated)), MeanIn(Get(m, AverageTime)), JsonIn(Get(m, Aggregate)))
  }

  /** The field-value pairs of one HMSET; every field is named at most once. */
  type Command = map<Field, Value>

  lemma AllKeysDiffer()
    ensures forall f, g :: Key(f) == Key(g) ==> f == g
  {
    forall f, g
      ensures Key(f) == Key(g) ==> f == g
    {
      KeysDiffer(f, g);
    }
  }

  function Hmset(m: Redis, c: Command): Redis {
    AllKeysDiffer();
    m + map f | f in c :: Key(f) := c[f]
  }

  function Named(c: Command, f: Field): Option<Value> {
    if f in c then Some(c[f]) else None
  }

  /** A command changes the fields it names and no other. */
  lemma HmsetGet(m: Redis, c: Command, f: Field)
    ensures Get(Hmset(m, c), f) == if f in c then Some(c[f]) else Get(m, f)
  {
    AllKeysDiffer();
  }

  // ----- the commands of the source -----

  /** updateAgeGenderStats: one of three and one of four moves, and all seven are named. */
  function AgeGender(r: Request, s: Tally, delta: int): Command {
    var group := AgeGroup(r.age);
    map[Male := Count(if r.gender == "male" then s.male + delta else s.male),
        Female := Count(if r.gender == "female" then s.female + delta else s.female),
        OtherGender :=
          Count(if r.gender != "male" && r.gender != "female" then s.otherGender + delta else s.otherGender),
        Age1 := Count(if group == 1 then s.age1 + delta else s.age1),
        Age2 := Count(if group == 2 then s.age2 + delta else s.age2),
        Age3 := Count(if group == 3 then s.age3 + delta else s.age3),
        Age4 := Count(if group == 4 then s.age4 + delta else s.age4)]
  }

  function StatusFields(r: Request, s: Tally): Command {
    match r.status
    case Approved =>
      map[PendingCount := Count(s.pending - 1), ApprovedCount := Count(s.approved + 1),
          TotalTime := Minutes(s.totalTime + ResponseTime(r))]
    case Denied =>
      map[PendingCount := Count(s.pending - 1), DeniedCount := Count(s.denied + 1),
          TotalTime := Minutes(s.totalTime + ResponseTime(r))]
    case Pending => map[PendingCount := Count(s.pending + 1)]
    case Banned => map[ApprovedCount := Count(s.approved - 1), BannedCount := Count(s.banned + 1)]
    case Deactivated => map[ApprovedCount := Count(s.approved - 1), LowerDeactivated := Count(s.deactivated + 1)]
  }

  function AverageField(average: Option<Average>): Command {
    if average.Some? then map[AverageTime := Mean(average.value)] else map[]
  }

  function People(r: Request, s: Tally): Command {
    if r.status == Approved then AgeGender(r, s, 1)
    else if r.status in {Banned, Deactivated} then AgeGender(r, s, -1) else map[]
  }

  /** The HMSET of UpdateRealTimeStats. */
  function UpdateCommand(r: Request, s: Tally): Command {
    StatusFields(r, s) + People(r, s) + AverageField(UpdateArgs(r, s).average)
  }

  /** The HMSET of SyncStats, with its capital letter. */
  function SyncCommand(t: Tally): Command {
    map[PendingCount := Count(t.pending), DeniedCount := Count(t.denied), ApprovedCount := Count(t.approved),
        BannedCount := Count(t.banned), UpperDeactivated := Count(t.deactivated),
        TotalTime := Minutes(t.totalTime), Male := Count(t.male), Female := Count(t.female),
        OtherGender := Count(t.otherGender), Age1 := Count(t.age1), Age2 := Count(t.age2), Age3 := Count(t.age3),
        Age4 := Count(t.age4)] + AverageField(SyncArgs(t).average)
  }

  function OfCount(n: Option<int>): Option<Value> {
    if n.Some? then Some(Count(n.value)) else None
  }

  /** What the arguments of module Stats give each field; none of its commands names the aggregate. */
  function ArgOf(a: Args, f: Field): Option<Value> {
    match f
    case PendingCount => OfCount(a.pending)
    case DeniedCount => OfCount(a.denied)
    case ApprovedCount => OfCount(a.approved)
    case BannedCount => OfCount(a.banned)
    case LowerDeactivated => OfCount(a.deactivated)
    case UpperDeactivated => OfCount(a.capitalDeactivated)
    case AverageTime => Named(AverageField(a.average), AverageTime)
    case TotalTime => if a.totalTime.Some? then Some(Minutes(a.totalTime.value)) else None
    case Male => OfCount(a.male)
    case Female => OfCount(a.female)
    case OtherGender => OfCount(a.otherGender)
    case Age1 => OfCount(a.age1)
    case Age2 => OfCount(a.age2)
    case Age3 => OfCount(a.age3)
    case Age4 => OfCount(a.age4)
    case Aggregate => None
  }

  ghost predicate Carries(c: Command, a: Args) {
    forall f :: Named(c, f) == ArgOf(a, f)
  }

  function StatusArgs(r: Request, s: Tally): Args {
    match r.status
    case Approved =>
      NO_ARGS.(pending := Some(s.pending - 1), approved := Some(s.approved + 1),
               totalTime := Some(s.totalTime + ResponseTime(r)))
    case Denied =>
      NO_ARGS.(pending := Some(s.pending - 1), denied := Some(s.denied + 1),
               totalTime := Some(s.totalTime + ResponseTime(r)))
    case Pending => NO_ARGS.(pending := Some(s.pending + 1))
    case Banned => NO_ARGS.(approved := Some(s.approved - 1), banned := Some(s.banned + 1))
    case Deactivated => NO_ARGS.(approved := Some(s.approved - 1), deactivated := Some(s.deactivated + 1))
  }

  function PeopleArgs(r: Request, s: Tally): Args {
    if r.status == Approved then AgeGenderArgs(r, s, 1, StatusArgs(r, s))
    else if r.status in {Banned, Deactivated} then AgeGenderArgs(r, s, -1, StatusArgs(r, s)) else StatusArgs(r, s)
  }

  lemma StatusCarries(r: Request, s: Tally)
    ensures Carries(StatusFields(r, s), StatusArgs(r, s))
  {
  }

  lemma AgeGenderCarries(c: Command, a: Args, r: Request, s: Tally, delta: int)
    requires Carries(c, a)
    ensures Carries(c + AgeGender(r, s, delta), AgeGenderArgs(r, s, delta, a))
  {
    forall f
      ensures Named(c + AgeGender(r, s, delta), f) == ArgOf(AgeGenderArgs(r, s, delta, a), f)
    {
      assert Named(c, f) == ArgOf(a, f);
    }
  }

  lemma AverageCarries(c: Command, a: Args)
    requires Carries(c, a.(average := None))
    ensures Carries(c + AverageField(a.average), a)
  {
    forall f
      ensures Named(c + AverageField(a.average), f) == ArgOf(a, f)
    {
      assert Named(c, f) == ArgOf(a.(average := None), f);
    }
  }

  lemma UpdateArgsAre(r: Request, s: Tally)
    ensures UpdateArgs(r, s).(average := None) == PeopleArgs(r, s)
  {
  }

  lemma UpdateCarries(r: Request, s: Tally)
    ensures Carries(UpdateCommand(r, s), UpdateArgs(r, s))
  {
    var c := StatusFields(r, s);
    StatusCarries(r, s);
    AgeGenderCarries(c, StatusArgs(r, s), r, s, 1);
    AgeGenderCarries(c, StatusArgs(r, s), r, s, -1);
    assert c + map[] == c;
    UpdateArgsAre(r, s);
    AverageCarries(c + People(r, s), UpdateArgs(r, s));
  }

  lemma SyncCarries(t: Tally)
    ensures Carries(SyncCommand(t), SyncArgs(t))
  {
  }

  ghost predicate Stored(m: Redis, m': Redis, a: Args) {
    forall f :: Get(m', f) == if ArgOf(a, f).Some? then ArgOf(a, f) else Get(m, f)
  }

  lemma ScanCount(m: Redis, m': Redis, a: Args, f: Field, n: Option<int>)
    requires Stored(m, m', a) && ArgOf(a, f) == OfCount(n)
    ensures CountIn(Get(m', f)) == Or(n, CountIn(Get(m, f)))
  {
  }

  lemma ScanPeople(m: Redis, m': Redis, a: Args)
    requires Stored(m, m', a)
    ensures var c, c', b := Scan(m).counters, Scan(m').counters, Stats.Hmset(Scan(m), a).counters;
            && c'.male == b.male && c'.female == b.female && c'.otherGender == b.otherGender
            && c'.age1 == b.age1 && c'.age2 == b.age2 && c'.age3 == b.age3 && c'.age4 == b.age4
  {
    ScanCount(m, m', a, Male, a.male);
    ScanCount(m, m', a, Female, a.female);
    ScanCount(m, m', a, OtherGender, a.otherGender);
    ScanCount(m, m', a, Age1, a.age1);
    ScanCount(m, m', a, Age2, a.age2);
    ScanCount(m, m', a, Age3, a.age3);
    ScanCount(m, m', a, Age4, a.age4);
  }

  lemma ScanStored(m: Redis, m': Redis, a: Args)
    requires Stored(m, m', a)
    ensures Scan(m') == Stats.Hmset(Scan(m), a)
  {
    ScanPeople(m, m', a);
    ScanCount(m, m', a, PendingCount, a.pending);
    ScanCount(m, m', a, DeniedCount, a.denied);
    ScanCount(m, m', a, ApprovedCount, a.approved);
    ScanCount(m, m', a, BannedCount, a.banned);
    ScanCount(m, m', a, LowerDeactivated, a.deactivated);
    ScanCount(m, m', a, UpperDeactivated, a.capitalDeactivated);
    assert Get(m', TotalTime) == if a.totalTime.Some? then Some(Minutes(a.totalTime.value)) else Get(m, TotalTime);
    assert Get(m', AverageTime) == if a.average.Some? then Some(Mean(a.average.value)) else Get(m, AverageTime);
    assert Get(m', Aggregate) == Get(m, Aggregate);
  }

  /** What is scanned after a command is what module Stats makes of its arguments. */
  lemma ScanHmset(m: Redis, c: Command, a: Args)
    requires Carries(c, a)
    ensures Scan(Hmset(m, c)) == Stats.Hmset(Scan(m), a)
  {
    forall f
      ensures Get(Hmset(m, c), f) == if ArgOf(a, f).Some? then ArgOf(a, f) else Get(m, f)
    {
      HmsetGet(m, c, f);
      assert Named(c, f) == ArgOf(a, f);
    }
    ScanStored(m, Hmset(m, c), a);
  }

  /** The flat map refines the record, because the names differ: so it is after an update, */
  lemma FlatUpdateRefines(m: Redis, r: Request)
    ensures Scan(Hmset(m, UpdateCommand(r, Scan(m).counters))) == UpdateRealTime(Scan(m), r)
  {
    UpdateCarries(r, Scan(m).counters);
    ScanHmset(m, UpdateCommand(r, Scan(m).counters), UpdateArgs(r, Scan(m).counters));
  }

  /** after a sync, which stores the deactivated ones under a name that no reader scans, */
  lemma FlatSyncRefines(m: Redis, rows: seq<Request>)
    ensures Scan(Hmset(m, SyncCommand(Recount(rows)))) == SyncRealTime(Scan(m), rows)
  {
    SyncCarries(Recount(rows));
    ScanHmset(m, SyncCommand(Recount(rows)), SyncArgs(Recount(rows)));
  }

  /** and after a write of the aggregate. */
  lemma FlatAggregateRefines(m: Redis, v: AggregateStats)
    ensures Scan(Hmset(m, map[Aggregate := Json(v)])) == Scan(m).(aggregate := Some(v))
  {
    forall f
      ensures Get(Hmset(m, map[Aggregate := Json(v)]), f) == if f == Aggregate then Some(Json(v)) else Get(m, f)
    {
      HmsetGet(m, map[Aggregate := Json(v)], f);
    }
    ScanAggregate(m, Hmset(m, map[Aggregate := Json(v)]), v);
  }

  lemma ScanAggregate(m: Redis, m': Redis, v: AggregateStats)
    requires forall f :: Get(m', f) == if f == Aggregate then Some(Json(v)) else Get(m, f)
    ensures Scan(m') == Scan(m).(aggregate := Some(v))
  {
  }
}
