/** The driver that runs the seat generator with a fixed 'heavy'
    configuration, either always from the fixed template (stateless) or
    from the previous output, kept in a module-level cache (stateful). */
module RunSeats {
  import opened SeatTypes
  import opened SeatGeneration
  import opened MockSeats

  /** 2024-01-01T00:00:00Z and 2024-12-31T00:00:00Z in milliseconds. */
  const StartDate: Timestamp := 1704067200000
  const EndDate: Timestamp := 1735603200000

  /** The driver's fixed configuration. */
  const MockConfig: SeatsMockConfig := SeatsMockConfig(
    StartDate,
    EndDate,
    Heavy,
    ["nathos", "arfon", "kyanny"],
    ["copilot-chat-platform",
     "vscode/1.96.2/copilot/1.254.0",
     "GitHubGhostPilot/1.0.0/unknown",
     "vscode/1.96.2/",
     "vscode/1.97.0-insider/copilot-chat/0.24.2024122001"])

  /** Under the driver's configuration every login advances by 4 hours. */
  lemma MockConfigIncrement(login: string)
    ensures NextActivityIncrement(MockConfig, login) == 4
  {
  }

  /** The driver module's state: the template loaded from the example file
      and the `staticTemplateData` cache, which starts out `null`. */
  class SeatsRunner {
    const templateData: Template
    var staticTemplateData: Option<Template>

    constructor (templateData: Template)
      ensures this.templateData == templateData && staticTemplateData == None
    {
      this.templateData := templateData;
      staticTemplateData := None;
    }

    /** The template the next stateful call builds from. */
    function StatefulBase(): Template
      reads this
    {
      if staticTemplateData.None? then templateData else staticTemplateData.value
    }

    /** `generateStatelessMetrics()`: always builds from the fixed template,
        and changes nothing. */
    method GenerateStatelessMetrics(draws: seq<nat>) returns (r: Result<Template>)
      requires DrawsFitTemplate(MockConfig.editors, draws, templateData)
      ensures r == Generate(MockConfig, templateData, draws)
    {
      var generator := MockSeatsGenerator.New(MockConfig, templateData);
      if generator.Err? {
        return Err(generator.error);
      }
      var data := generator.value.GenerateMetrics(draws);
      return Ok(data);
    }

    /** `generateStatefulMetrics()`: seeds the cache with the template when
        it is empty, builds from the cache, and stores the output there. A
        throwing construction leaves the cache seeded. Each seat of the
        output is consistent per login, and when the cache already held such
        a snapshot, every seat moves on by 4 hours from its cached value,
        or to `false` past the end date. */
    method GenerateStatefulMetrics(draws: seq<nat>) returns (r: Result<Template>)
      requires DrawsFitTemplate(MockConfig.editors, draws, StatefulBase())
      modifies this
      ensures r == Generate(MockConfig, old(StatefulBase()), draws)
      ensures old(staticTemplateData).None? ==> r == Generate(MockConfig, templateData, draws)
      ensures staticTemplateData == Some(if r.Ok? then r.value else old(StatefulBase()))
      ensures r.Ok? ==> TimesAgree(r.value.seats.value)
      ensures r.Ok? && TimesAgree(old(StatefulBase()).seats.value) ==>
                var before := old(StatefulBase()).seats.value;
                var after := r.value.seats.value;
                |after| == |before| &&
                forall i :: 0 <= i < |before| ==>
                  after[i].lastActivityAt == NextActivity(TimeOf(before[i].lastActivityAt), 4, EndDate)
    {
      if staticTemplateData.None? {
        staticTemplateData := Some(templateData);
      }
      var base := staticTemplateData.value;
      var generator := MockSeatsGenerator.New(MockConfig, base);
      if generator.Err? {
        return Err(generator.error);
      }
      var data := generator.value.GenerateMetrics(draws);
      staticTemplateData := Some(data);
      r := Ok(data);
      SnapshotTimesAgree(MockConfig, base, draws);
      if TimesAgree(base.seats.value) {
        HeavyStep(base, draws);
      }
    }
  }

  /** One heavy step from a template whose equal logins agree: every seat
      advances from its own time by 4 hours, capped at the end date. */
  lemma HeavyStep(base: Template, draws: seq<nat>)
    requires DrawsFitTemplate(MockConfig.editors, draws, base)
    requires base.seats.Some? && TimesAgree(base.seats.value)
    ensures var after := Generate(MockConfig, base, draws).value.seats.value;
            forall i :: 0 <= i < |base.seats.value| ==>
              after[i].lastActivityAt == NextActivity(TimeOf(base.seats.value[i].lastActivityAt), 4, EndDate)
  {
    SeedActivitiesAgree(base.seats.value);
  }

  /** Two stateless calls agree on every seat's time, whatever editors
      they draw. */
  method StatelessCallsAgree(templateData: Template, d1: seq<nat>, d2: seq<nat>)
    returns (first: Result<Template>, second: Result<Template>)
    requires DrawsFitTemplate(MockConfig.editors, d1, templateData)
    requires DrawsFitTemplate(MockConfig.editors, d2, templateData)
    ensures first.Ok? <==> templateData.seats.Some?
    ensures second.Ok? == first.Ok?
    ensures first.Ok? ==>
              first.value.seats.Some? && second.value.seats.Some? &&
              var s1 := first.value.seats.value;
              var s2 := second.value.seats.value;
              |s1| == |s2| && forall i :: 0 <= i < |s1| ==> s1[i].lastActivityAt == s2[i].lastActivityAt
  {
    var runner := new SeatsRunner(templateData);
    first := runner.GenerateStatelessMetrics(d1);
    second := runner.GenerateStatelessMetrics(d2);
    StatelessTimesAgree(MockConfig, templateData, d1, d2);
  }

  /** Two stateful calls in a row: the second builds from the first's
      output, so every seat the first call advanced is 4 hours later again
      unless that passes the end date. */
  method StatefulCallsAdvance(templateData: Template, d1: seq<nat>, d2: seq<nat>)
    returns (first: Result<Template>, second: Result<Template>)
    requires templateData.seats.Some?
    requires DrawsFit(MockConfig.editors, d1, |templateData.seats.value|)
    requires DrawsFit(MockConfig.editors, d2, |templateData.seats.value|)
    ensures first.Ok? && first.value.seats.Some? && second.Ok? && second.value.seats.Some?
    ensures var s1 := first.value.seats.value;
            var s2 := second.value.seats.value;
            |s1| == |s2| == |templateData.seats.value| &&
            forall i :: 0 <= i < |s1| && s1[i].lastActivityAt.At? ==>
              (s1[i].lastActivityAt.time + 4 * MsPerHour <= EndDate ==>
                 s2[i].lastActivityAt == At(s1[i].lastActivityAt.time + 4 * MsPerHour)) &&
              (s1[i].lastActivityAt.time + 4 * MsPerHour > EndDate ==> s2[i].lastActivityAt == Capped)
  {
    var runner := new SeatsRunner(templateData);
    first := runner.GenerateStatefulMetrics(d1);
    second := runner.GenerateStatefulMetrics(d2);
  }
}
