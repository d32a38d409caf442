/** The generator object: it keeps its configuration, the template it was
    built from and the login map seeded once at construction, and produces
    a fresh snapshot on every call. */
module MockSeats {
  import opened SeatTypes
  import opened SeatGeneration

  class MockSeatsGenerator {
    const config: SeatsMockConfig
    const baseData: Template
    const editors: seq<string>
    /** Login to last activity time; only the constructor writes it. */
    var activities: map<string, Timestamp>

    /** The object invariant: the template has seats and the map is the one
        seeded from them. */
    ghost predicate Valid()
      reads this
    {
      && baseData.seats.Some?
      && editors == config.editors
      && activities == SeedActivities(baseData.seats.value)
    }

    /** The constructor once the `seats` check has passed: seeds the map by
        visiting the seats in order. */
    constructor (config: SeatsMockConfig, templateData: Template)
      requires templateData.seats.Some?
      ensures Valid()
      ensures this.config == config && baseData == templateData
    {
      this.config := config;
      baseData := templateData;
      activities := map[];
      editors := config.editors;
      new;
      var seats := templateData.seats.value;
      var i := 0;
      while i < |seats|
        invariant 0 <= i <= |seats|
        invariant activities == SeedActivities(seats[..i])
      {
        assert seats[..i + 1][..i] == seats[..i];
        activities := activities[seats[i].login := TimeOf(seats[i].lastActivityAt)];
        i := i + 1;
      }
      assert seats[..i] == seats;
    }

    /** `new MockSeatsGenerator(config, templateData)`, which throws when the
        template has no `seats` property. */
    static method New(config: SeatsMockConfig, templateData: Template) returns (r: Result<MockSeatsGenerator>)
      ensures r.Err? <==> templateData.seats.None?
      ensures r.Err? ==> r.error == SeatsMissingError
      ensures r.Ok? ==> fresh(r.value) && r.value.Valid()
      ensures r.Ok? ==> r.value.config == config && r.value.baseData == templateData
    {
      if templateData.seats.None? {
        return Err(SeatsMissingError);
      }
      var generator := new MockSeatsGenerator(config, templateData);
      return Ok(generator);
    }

    /** `generateMetrics()`: copies the template, then overwrites each copied
        seat's editor (from its draw) and activity in place. The map and the
        template are left as they were. */
    method GenerateMetrics(draws: seq<nat>) returns (newData: Template)
      requires Valid()
      requires DrawsFit(editors, draws, |baseData.seats.value|)
      ensures Generate(config, baseData, draws) == Ok(newData)
    {
      var seats := baseData.seats.value;
      var copy := new Seat[|seats|](k requires 0 <= k < |seats| => seats[k]);
      var i := 0;
      while i < copy.Length
        invariant 0 <= i <= copy.Length == |seats|
        invariant forall k :: 0 <= k < i ==>
                    copy[k] == UpdatedSeat(config, activities, seats[k], draws[k])
        invariant forall k :: i <= k < copy.Length ==> copy[k] == seats[k]
      {
        var seat := copy[i];
        assert seat in seats;
        seat := seat.(lastActivityEditor := RandomEditor(editors, draws[i]));
        seat := seat.(lastActivityAt := UpdateActivity(config, activities, seat.login));
        copy[i] := seat;
        i := i + 1;
      }
      ghost var expected := GenerateSeats(config, activities, seats, draws);
      assert copy[..] == expected by {
        forall k | 0 <= k < |seats| ensures copy[..][k] == expected[k] {
          assert seats[k] in seats;
        }
      }
      newData := baseData.(seats := Some(copy[..]));
    }
  }
}
