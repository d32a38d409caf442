/** The value-level behaviour of the seat-activity generator: the editor
    draw, the usage-pattern increment, the capped advance of one activity,
    the login map seeded from a template, and the snapshot one call of
    `generateMetrics` produces, with the properties that stateless and
    stateful chaining rely on. */
module SeatGeneration {
  import opened SeatTypes

  /** The message of the error thrown when the template has no seats. */
  const SeatsMissingError: string := "Template data must include a 'seats' property."

  // ---------------------------------------------------------------------
  // Editor draw

  /** A value `Math.floor(Math.random() * editors.length)` can take: an
      index into the pool, or 0 when the pool is empty. */
  predicate ValidDraw(editors: seq<string>, draw: nat) {
    draw < |editors| || draw == 0
  }

  /** One draw per seat, each of them possible. */
  predicate DrawsFit(editors: seq<string>, draws: seq<nat>, n: nat) {
    |draws| == n && forall k :: 0 <= k < |draws| ==> ValidDraw(editors, draws[k])
  }

  /** Draws that fit the seats of a template (any draws fit a template
      without seats, which is rejected before a draw is made). */
  predicate DrawsFitTemplate(editors: seq<string>, draws: seq<nat>, t: Template) {
    t.seats.Some? ==> DrawsFit(editors, draws, |t.seats.value|)
  }

  /** The editor picked by `getRandomEditor` for a given draw; an empty pool
      yields `undefined`, modelled as `None`. */
  function RandomEditor(editors: seq<string>, draw: nat): (r: Option<string>)
    requires ValidDraw(editors, draw)
    ensures r.Some? <==> |editors| > 0
    ensures r.Some? ==> r.value in editors
  {
    if draw < |editors| then Some(editors[draw]) else None
  }

  // ---------------------------------------------------------------------
  // Increment and capped advance

  /** Hours by which a login's activity advances under the configured
      pattern (`getNextActivityIncrement`). */
  function NextActivityIncrement(config: SeatsMockConfig, login: string): (hours: nat)
    ensures 0 < hours <= 168
  {
    match config.usagePattern
    case Heavy => 4
    case HeavyButSiloed => if login in config.heavyUsers then 12 else 24
    case Moderate => 24
    case Light => 168
  }

  /** The exact increment per pattern; the siloed pattern is the only one
      that looks at the login. */
  lemma IncrementTable(config: SeatsMockConfig, login: string)
    ensures config.usagePattern == Heavy ==> NextActivityIncrement(config, login) == 4
    ensures config.usagePattern == HeavyButSiloed && login in config.heavyUsers ==>
              NextActivityIncrement(config, login) == 12
    ensures config.usagePattern == HeavyButSiloed && login !in config.heavyUsers ==>
              NextActivityIncrement(config, login) == 24
    ensures config.usagePattern == Moderate ==> NextActivityIncrement(config, login) == 24
    ensures config.usagePattern == Light ==> NextActivityIncrement(config, login) == 168
    ensures config.usagePattern != HeavyButSiloed ==>
              forall other :: NextActivityIncrement(config, other) == NextActivityIncrement(config, login)
  {
  }

  /** Heavy users never advance more slowly than anyone else, and the
      patterns are ordered heavy < moderate < light for every login. */
  lemma HeavyUsersNeverSlower(config: SeatsMockConfig, heavy: string, other: string)
    requires heavy in config.heavyUsers
    ensures NextActivityIncrement(config, heavy) <= NextActivityIncrement(config, other)
    ensures NextActivityIncrement(config.(usagePattern := Heavy), other)
          < NextActivityIncrement(config.(usagePattern := Moderate), other)
          < NextActivityIncrement(config.(usagePattern := Light), other)
  {
  }

  /** The value `updateActivity` stores for a current time: the time
      `hours` later, or `Capped` (`false`) when that passes the end date.
      Exactly the end date is still allowed. */
  function NextActivity(current: Timestamp, hours: nat, endDate: Timestamp): (r: Activity)
    ensures r.At? <==> current + hours * MsPerHour <= endDate
    ensures r.At? ==> r.time - current == hours * MsPerHour && r.time <= endDate
    ensures r.At? && hours > 0 ==> r.time > current
  {
    var next := current + hours * MsPerHour;
    if next > endDate then Capped else At(next)
  }

  /** `updateActivity(login)`: reads the login's stored time (the map is
      only read) and advances it by the pattern's increment, capped at the
      end date. */
  function UpdateActivity(config: SeatsMockConfig, activities: map<string, Timestamp>, login: string): (r: Activity)
    requires login in activities
    ensures r.At? ==> r.time == activities[login] + NextActivityIncrement(config, login) * MsPerHour
    ensures r.At? ==> activities[login] < r.time <= config.endDate
    ensures r.Capped? <==>
              activities[login] + NextActivityIncrement(config, login) * MsPerHour > config.endDate
  {
    NextActivity(activities[login], NextActivityIncrement(config, login), config.endDate)
  }

  // ---------------------------------------------------------------------
  // The login map seeded at construction

  /** The logins of a seat list. */
  function Logins(seats: seq<Seat>): set<string> {
    set s | s in seats :: s.login
  }

  /** The map the constructor builds: seats are visited in order and each
      sets its login to its own time, so a later seat with the same login
      overrides an earlier one. */
  function SeedActivities(seats: seq<Seat>): (m: map<string, Timestamp>)
    ensures m.Keys == Logins(seats)
  {
    if |seats| == 0 then map[]
    else
      var last := seats[|seats| - 1];
      var prefix := seats[..|seats| - 1];
      assert seats == prefix + [last];
      assert Logins(seats) == Logins(prefix) + {last.login};
      SeedActivities(prefix)[last.login := TimeOf(last.lastActivityAt)]
  }

  /** A seat whose login no later seat repeats keeps its own time in the
      seeded map. */
  lemma {:induction false} SeedActivitiesLatest(seats: seq<Seat>, i: nat)
    requires i < |seats|
    requires forall j :: i < j < |seats| ==> seats[j].login != seats[i].login
    ensures SeedActivities(seats)[seats[i].login] == TimeOf(seats[i].lastActivityAt)
  {
    if i < |seats| - 1 {
      var prefix := seats[..|seats| - 1];
      SeedActivitiesLatest(prefix, i);
    }
  }

  /** Seats that share a login all carry the same time. */
  ghost predicate TimesAgree(seats: seq<Seat>) {
    forall i, j :: 0 <= i < |seats| && 0 <= j < |seats| && seats[i].login == seats[j].login ==>
      TimeOf(seats[i].lastActivityAt) == TimeOf(seats[j].lastActivityAt)
  }

  /** Logins that are pairwise distinct. */
  ghost predicate UniqueLogins(seats: seq<Seat>) {
    forall i, j :: 0 <= i < j < |seats| ==> seats[i].login != seats[j].login
  }

  /** When the times of equal logins agree, every seat's own time is what
      the seeded map holds for its login. */
  lemma {:induction false} SeedActivitiesAgree(seats: seq<Seat>)
    requires TimesAgree(seats)
    ensures forall i :: 0 <= i < |seats| ==>
              SeedActivities(seats)[seats[i].login] == TimeOf(seats[i].lastActivityAt)
  {
    if |seats| > 0 {
      var prefix := seats[..|seats| - 1];
      assert TimesAgree(prefix) by {
        forall i, j | 0 <= i < |prefix| && 0 <= j < |prefix| && prefix[i].login == prefix[j].login
          ensures TimeOf(prefix[i].lastActivityAt) == TimeOf(prefix[j].lastActivityAt)
        {
          assert prefix[i] == seats[i] && prefix[j] == seats[j];
        }
      }
      SeedActivitiesAgree(prefix);
      forall i | 0 <= i < |seats|
        ensures SeedActivities(seats)[seats[i].login] == TimeOf(seats[i].lastActivityAt)
      {
        if i < |seats| - 1 {
          assert prefix[i] == seats[i];
        }
      }
    }
  }

  /** With distinct logins, every seat's time is in the seeded map. */
  lemma SeedActivitiesUnique(seats: seq<Seat>)
    requires UniqueLogins(seats)
    ensures forall i :: 0 <= i < |seats| ==>
              SeedActivities(seats)[seats[i].login] == TimeOf(seats[i].lastActivityAt)
  {
    forall i | 0 <= i < |seats|
      ensures SeedActivities(seats)[seats[i].login] == TimeOf(seats[i].lastActivityAt)
    {
      SeedActivitiesLatest(seats, i);
    }
  }

  // ---------------------------------------------------------------------
  // One call of generateMetrics

  /** A seat as `generateMetrics` rewrites it: a drawn editor and the
      updated activity; every other part of the record is kept. */
  function UpdatedSeat(config: SeatsMockConfig, activities: map<string, Timestamp>, seat: Seat, draw: nat): Seat
    requires seat.login in activities
    requires ValidDraw(config.editors, draw)
  {
    seat.(lastActivityEditor := RandomEditor(config.editors, draw),
          lastActivityAt := UpdateActivity(config, activities, seat.login))
  }

  /** The seats of one snapshot: the template's seats in the same order,
      each rewritten by `UpdatedSeat` with its own draw. */
  function GenerateSeats(config: SeatsMockConfig, activities: map<string, Timestamp>,
                         seats: seq<Seat>, draws: seq<nat>): (out: seq<Seat>)
    requires Logins(seats) <= activities.Keys
    requires DrawsFit(config.editors, draws, |seats|)
    ensures |out| == |seats|
    ensures forall i :: 0 <= i < |seats| ==>
              out[i].(lastActivityEditor := seats[i].lastActivityEditor,
                      lastActivityAt := seats[i].lastActivityAt) == seats[i]
    ensures forall i :: 0 <= i < |seats| && out[i].lastActivityEditor.Some? ==>
              out[i].lastActivityEditor.value in config.editors
    ensures |config.editors| > 0 ==> forall i :: 0 <= i < |seats| ==> out[i].lastActivityEditor.Some?
    ensures forall i :: 0 <= i < |seats| ==>
              out[i].lastActivityAt == UpdateActivity(config, activities, seats[i].login)
  {
    seq(|seats|, i requires 0 <= i < |seats| =>
      assert seats[i] in seats;
      UpdatedSeat(config, activities, seats[i], draws[i]))
  }

  /** What constructing a generator from `template` and calling
      `generateMetrics` once gives: the thrown error when the template has
      no seats, and otherwise a copy of the template whose seats are
      rewritten from the map seeded from those same seats. */
  function Generate(config: SeatsMockConfig, template: Template, draws: seq<nat>): (r: Result<Template>)
    requires DrawsFitTemplate(config.editors, draws, template)
    ensures r.Err? <==> template.seats.None?
    ensures r.Err? ==> r.error == SeatsMissingError
    ensures r.Ok? ==> r.value.rest == template.rest && r.value.seats.Some?
                      && |r.value.seats.value| == |template.seats.value|
  {
    match template.seats
    case None => Err(SeatsMissingError)
    case Some(seats) =>
      Ok(template.(seats := Some(GenerateSeats(config, SeedActivities(seats), seats, draws))))
  }

  /** Stateless use: two calls on the same template, whatever editors they
      draw, store the same `last_activity_at` in every seat. */
  lemma StatelessTimesAgree(config: SeatsMockConfig, template: Template, draws1: seq<nat>, draws2: seq<nat>)
    requires DrawsFitTemplate(config.editors, draws1, template)
    requires DrawsFitTemplate(config.editors, draws2, template)
    ensures Generate(config, template, draws1).Ok? == Generate(config, template, draws2).Ok?
    ensures Generate(config, template, draws1).Ok? ==>
              var s1 := Generate(config, template, draws1).value.seats.value;
              var s2 := Generate(config, template, draws2).value.seats.value;
              |s1| == |s2| && forall i :: 0 <= i < |s1| ==> s1[i].lastActivityAt == s2[i].lastActivityAt
  {
  }

  /** In every snapshot, seats that share a login carry the same activity,
      so a snapshot always seeds each seat with its own time. */
  lemma SnapshotTimesAgree(config: SeatsMockConfig, template: Template, draws: seq<nat>)
    requires DrawsFitTemplate(config.editors, draws, template)
    requires Generate(config, template, draws).Ok?
    ensures TimesAgree(Generate(config, template, draws).value.seats.value)
  {
    var out := Generate(config, template, draws).value.seats.value;
    var seats := template.seats.value;
    forall i, j | 0 <= i < |out| && 0 <= j < |out| && out[i].login == out[j].login
      ensures TimeOf(out[i].lastActivityAt) == TimeOf(out[j].lastActivityAt)
    {
      assert out[i].login == seats[i].login && out[j].login == seats[j].login;
    }
  }

  /** Stateful use: a generator built from a snapshot stores, in each seat,
      the capped advance of that seat's own stored value. */
  lemma {:induction false} ChainStep(config: SeatsMockConfig, template: Template, draws1: seq<nat>, draws2: seq<nat>)
    requires DrawsFitTemplate(config.editors, draws1, template)
    requires Generate(config, template, draws1).Ok?
    requires DrawsFitTemplate(config.editors, draws2, Generate(config, template, draws1).value)
    ensures var s1 := Generate(config, template, draws1).value.seats.value;
            var s2 := Generate(config, Generate(config, template, draws1).value, draws2).value.seats.value;
            |s2| == |s1| &&
            forall i :: 0 <= i < |s1| ==>
              s2[i].lastActivityAt ==
                NextActivity(TimeOf(s1[i].lastActivityAt), NextActivityIncrement(config, s1[i].login), config.endDate)
  {
    var s1 := Generate(config, template, draws1).value.seats.value;
    SnapshotTimesAgree(config, template, draws1);
    SeedActivitiesAgree(s1);
  }

  /** Stateful use: every seat that ran 1 advanced is different in run 2:
      strictly later by exactly its increment while the end date allows,
      `false` otherwise. */
  lemma ChainAdvances(config: SeatsMockConfig, template: Template, draws1: seq<nat>, draws2: seq<nat>)
    requires DrawsFitTemplate(config.editors, draws1, template)
    requires Generate(config, template, draws1).Ok?
    requires DrawsFitTemplate(config.editors, draws2, Generate(config, template, draws1).value)
    ensures var s1 := Generate(config, template, draws1).value.seats.value;
            var s2 := Generate(config, Generate(config, template, draws1).value, draws2).value.seats.value;
            |s2| == |s1| &&
            forall i :: 0 <= i < |s1| && s1[i].lastActivityAt.At? ==>
              && s2[i].lastActivityAt != s1[i].lastActivityAt
              && var hours := NextActivityIncrement(config, s1[i].login);
                 (s1[i].lastActivityAt.time + hours * MsPerHour <= config.endDate ==>
                    s2[i].lastActivityAt == At(s1[i].lastActivityAt.time + hours * MsPerHour))
  {
    ChainStep(config, template, draws1, draws2);
  }

  /** A seat capped in run 1 is reseeded from the epoch (`new Date(false)`)
      in run 2, so it restarts one increment after the epoch. */
  lemma CappedRestartsAtEpoch(config: SeatsMockConfig, template: Template, draws1: seq<nat>, draws2: seq<nat>)
    requires DrawsFitTemplate(config.editors, draws1, template)
    requires Generate(config, template, draws1).Ok?
    requires DrawsFitTemplate(config.editors, draws2, Generate(config, template, draws1).value)
    ensures var s1 := Generate(config, template, draws1).value.seats.value;
            var s2 := Generate(config, Generate(config, template, draws1).value, draws2).value.seats.value;
            forall i :: 0 <= i < |s1| && s1[i].lastActivityAt.Capped? ==>
              s2[i].lastActivityAt == NextActivity(0, NextActivityIncrement(config, s1[i].login), config.endDate)
  {
    ChainStep(config, template, draws1, draws2);
  }

  /** When the end date lies at least a week after the epoch, every seat of
      run 2 differs from run 1, capped or not. */
  lemma ChainAlwaysDiffers(config: SeatsMockConfig, template: Template, draws1: seq<nat>, draws2: seq<nat>)
    requires DrawsFitTemplate(config.editors, draws1, template)
    requires Generate(config, template, draws1).Ok?
    requires DrawsFitTemplate(config.editors, draws2, Generate(config, template, draws1).value)
    requires config.endDate >= 168 * MsPerHour
    ensures var s1 := Generate(config, template, draws1).value.seats.value;
            var s2 := Generate(config, Generate(config, template, draws1).value, draws2).value.seats.value;
            |s2| == |s1| && forall i :: 0 <= i < |s1| ==> s2[i].lastActivityAt != s1[i].lastActivityAt
  {
    ChainStep(config, template, draws1, draws2);
  }
}
