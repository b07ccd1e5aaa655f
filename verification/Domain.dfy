/** The values the program passes around (chaosmonkey.go, deploy/deployment.go). */
module Domain {

  datatype Option<+T> = None | Some(value: T)

  /** The error returns, fatal exits and panics of the modelled functions. */
  datatype Error =
    | BeginFailed
    | QueryFailed
    | CloseFailed
    | InsertFailed
    | CommitFailed
    | AlreadyExists
    | ViolatesMinTime(instanceId: string, killedAt: int)
    | NegativeMinTime(days: int)
    | UnknownGrouping(code: int)
    | Unavailable(what: string)
    | UnleashedInTestEnv
    | TrackerFailed(index: nat)
    | TerminatorFailed
    | ParseFailed(name: string)
    | NotDeployed
    | InvalidConfig(reason: string)
    | FatalAppDisabled
    | Panic(reason: string)

  datatype Result<+T> = Ok(value: T) | Err(error: Error)

  datatype Grouping = ByApp | ByStack | ByCluster | Unrecognized(code: int)

  /** A field "*" matches every value. */
  datatype Exception = Exception(account: string, stack: string, detail: string, region: string) {
    static predicate FieldMatches(field: string, value: string) {
      field == "*" || field == value
    }

    predicate Matches(account: string, stack: string, detail: string, region: string) {
      && FieldMatches(this.account, account)
      && FieldMatches(this.stack, stack)
      && FieldMatches(this.detail, detail)
      && FieldMatches(this.region, region)
    }
  }

  datatype AppConfig = AppConfig(
    enabled: bool,
    regionsAreIndependent: bool,
    meanTime: int,
    minTime: int,
    grouping: Grouping,
    exceptions: seq<Exception>,
    whitelist: Option<seq<Exception>>)

  datatype Instance = Instance(
    app: string, account: string, region: string, stack: string,
    cluster: string, asg: string, id: string, cloudProvider: string)

  datatype Termination = Termination(instance: Instance, time: int, leashed: bool)

  /** The parts of a cluster or ASG name. */
  datatype Names = Names(app: string, stack: string, detail: string)

  /** frigga.Parse, a library function; None stands for its error return. */
  type Parser = string -> Option<Names>
}
