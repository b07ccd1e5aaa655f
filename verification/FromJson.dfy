/** From the parsed attributes of an app to its configuration (spinnaker/fromjson.go:93-200). */
module FromJson {
  import opened Domain
  import opened WorkCalendar
  import opened MinTime

  datatype ParsedChaosMonkey = ParsedChaosMonkey(
    enabled: Option<bool>,
    grouping: string,
    meanTime: Option<int>,
    minTime: Option<int>,
    regionsAreIndependent: bool,
    exceptions: seq<Exception>,
    whitelist: Option<seq<Exception>>)

  datatype ParsedAttributes = ParsedAttributes(chaosMonkey: Option<ParsedChaosMonkey>)

  /** An unknown name is an error for an enabled app and means cluster for a disabled one. */
  function GroupingOf(name: string): Option<Grouping> {
    if name == "app" then Some(ByApp)
    else if name == "stack" then Some(ByStack)
    else if name == "cluster" then Some(ByCluster)
    else None
  }

  function OrZero(n: Option<int>): int {
    if n.Some? then n.value else 0
  }

  predicate Named(ex: Exception) {
    ex.account != "" && ex.region != ""
  }

  function FirstUnnamed(exs: seq<Exception>): (e: Option<Error>)
    ensures e.None? <==> forall i :: 0 <= i < |exs| ==> Named(exs[i])
  {
    if exs == [] then None
    else if exs[0].account == "" then Some(InvalidConfig("missing account field in exception"))
    else if exs[0].region == "" then Some(InvalidConfig("missing region field in exception"))
    else
      assert forall i :: 0 < i < |exs| ==> exs[i] == exs[1..][i - 1];
      FirstUnnamed(exs[1..])
  }

  function FromJSON(parsed: Option<ParsedAttributes>): Result<AppConfig> {
    if parsed.None? then Err(InvalidConfig("attributes missing"))
    else if parsed.value.chaosMonkey.None? then Err(InvalidConfig("chaosMonkey missing"))
    else
      var cm := parsed.value.chaosMonkey.value;
      if cm.enabled.None? then Err(InvalidConfig("enabled missing"))
      else if cm.enabled.value && cm.meanTime.None? then Err(InvalidConfig("mean time missing"))
      else if cm.enabled.value && cm.minTime.None? then Err(InvalidConfig("min time missing"))
      else if cm.enabled.value && cm.meanTime.value <= 0 then Err(InvalidConfig("invalid mean time"))
      else
        var grouping := GroupingOf(cm.grouping);
        if grouping.None? && cm.enabled.value then Err(InvalidConfig("unknown grouping"))
        else
          var unnamed := FirstUnnamed(cm.exceptions);
          if unnamed.Some? then Err(unnamed.value)
          else
            Ok(AppConfig(cm.enabled.value, cm.regionsAreIndependent, OrZero(cm.meanTime), OrZero(cm.minTime),
                         if grouping.Some? then grouping.value else ByCluster, cm.exceptions, cm.whitelist))
  }

  // ---------------------------------------------------------------- which JSON is accepted

  /** The attributes, the chaosMonkey field and the enabled field are there. */
  ghost predicate HasEnabled(parsed: Option<ParsedAttributes>) {
    parsed.Some? && parsed.value.chaosMonkey.Some? && parsed.value.chaosMonkey.value.enabled.Some?
  }

  /** What an enabled app must say. */
  ghost predicate IsComplete(cm: ParsedChaosMonkey) {
    && cm.meanTime.Some? && cm.meanTime.value > 0 && cm.minTime.Some?
    && cm.grouping in {"app", "stack", "cluster"}
  }

  /** JSON is accepted exactly when it says whether the app is enabled, an enabled app has a positive
      mean time, a minimum time and a known grouping, and no exception leaves its account or region
      blank. */
  lemma AcceptedIff(parsed: Option<ParsedAttributes>)
    ensures FromJSON(parsed).Ok?
       <==> && HasEnabled(parsed)
            && var cm := parsed.value.chaosMonkey.value;
               && (cm.enabled.value ==> IsComplete(cm))
               && (forall i :: 0 <= i < |cm.exceptions| ==> cm.exceptions[i].account != "" && cm.exceptions[i].region != "")
  {
  }

  /** Every field is read as it is; a disabled app that leaves out a time has none, and one that
      leaves out its grouping is grouped by cluster. */
  lemma AcceptedIsReadAs(parsed: Option<ParsedAttributes>)
    requires FromJSON(parsed).Ok?
    ensures var cm, cfg := parsed.value.chaosMonkey.value, FromJSON(parsed).value;
            && cm.enabled == Some(cfg.enabled)
            && cfg.regionsAreIndependent == cm.regionsAreIndependent
            && cfg.exceptions == cm.exceptions && cfg.whitelist == cm.whitelist
            && cm.meanTime in {Some(cfg.meanTime), None} && (cm.meanTime.None? ==> cfg.meanTime == 0 && !cfg.enabled)
            && cm.minTime in {Some(cfg.minTime), None} && (cm.minTime.None? ==> cfg.minTime == 0 && !cfg.enabled)
            && (cfg.grouping == ByApp <==> cm.grouping == "app")
            && (cfg.grouping == ByStack <==> cm.grouping == "stack")
            && (cfg.grouping == ByCluster <==> cm.grouping !in {"app", "stack"})
  {
  }

  // ---------------------------------------------------------------- which configurations there are

  /** What every configuration has that was read from JSON. */
  predicate Readable(cfg: AppConfig) {
    && !cfg.grouping.Unrecognized?
    && (cfg.enabled ==> cfg.meanTime > 0)
    && (forall i :: 0 <= i < |cfg.exceptions| ==> Named(cfg.exceptions[i]))
  }

  function GroupingName(grouping: Grouping): string
    requires !grouping.Unrecognized?
  {
    match grouping
    case ByApp => "app"
    case ByStack => "stack"
    case ByCluster => "cluster"
  }

  function ToJSON(cfg: AppConfig): ParsedAttributes
    requires !cfg.grouping.Unrecognized?
  {
    ParsedAttributes(Some(ParsedChaosMonkey(
      Some(cfg.enabled), GroupingName(cfg.grouping), Some(cfg.meanTime), Some(cfg.minTime),
      cfg.regionsAreIndependent, cfg.exceptions, cfg.whitelist)))
  }

  /** A configuration can be read from some JSON exactly when it is readable, and then its own
      attributes give it back. */
  lemma ReadFromSomeJsonIff(cfg: AppConfig)
    ensures (exists parsed :: FromJSON(parsed) == Ok(cfg)) <==> Readable(cfg)
    ensures Readable(cfg) ==> FromJSON(Some(ToJSON(cfg))) == Ok(cfg)
  {
    if exists parsed :: FromJSON(parsed) == Ok(cfg) {
      var parsed :| FromJSON(parsed) == Ok(cfg);
      AcceptedIsReadable(parsed);
    }
    if Readable(cfg) {
      assert GroupingOf(GroupingName(cfg.grouping)) == Some(cfg.grouping);
      assert FromJSON(Some(ToJSON(cfg))) == Ok(cfg);
    }
  }

  lemma AcceptedIsReadable(parsed: Option<ParsedAttributes>)
    ensures FromJSON(parsed).Ok? ==> Readable(FromJSON(parsed).value)
  {
  }

  /** Only the checker refuses a negative minimum time: such a configuration is read without an
      error, and then every check under it fails with one. */
  lemma NegativeMinTimeIsReadButNeverPasses(cfg: AppConfig, term: Termination, endHour: int, z: Zone)
    requires Sane(z) && Readable(cfg)
    ensures FromJSON(Some(ToJSON(cfg))) == Ok(cfg)
    ensures QueryFor(term, cfg, endHour, z).Ok? <==> cfg.minTime >= 0
  {
    ReadFromSomeJsonIff(cfg);
  }
}
