/** The provider bootstrap, `Config.Client` (aws/config.go). */
module Bootstrap {
  import opened AwsErrors
  import opened Region
  import opened Credentials
  import opened Validation

  /** The provider configuration; it is never changed once built. */
  datatype Config = Config(
    accessKey: string,
    secretKey: string,
    credsFilename: string,
    profile: string,
    token: string,
    region: string,
    maxRetries: int,
    insecure: bool,
    iamEndpoint: string)

  /** The `aws.Config` the bootstrap assembles for its base session. */
  datatype SessionConfig = SessionConfig(
    credentials: Credentials,
    region: string,
    maxRetries: int,
    debugLogging: bool,        // SDK log level and the `awsLogger` adapter attached
    insecureSkipVerify: bool)  // TLS certificate verification disabled on the transport

  /**
   * An SDK session: its configuration, the endpoint override ("" means the
   * SDK's default endpoint) and the names of its Build handlers, first first.
   */
  datatype Session = Session(config: SessionConfig, endpoint: string, buildHandlers: seq<string>)

  datatype Service = Iam | CognitoIdentity

  /** A service client derived from a session. */
  datatype ServiceClient = ServiceClient(service: Service, session: Session)

  /** The client bundle handed to the resources; `None` stands for a nil connection. */
  datatype AWSClient = AWSClient(ciconn: Option<ServiceClient>, iamconn: Option<ServiceClient>, region: string)

  const UserAgentHandlerName := "terraform.TerraformVersionUserAgentHandler"

  /**
   * What the bootstrap learns from outside: the `AWS_METADATA_URL` variable,
   * whether debug logging is on, the outcome of the metadata GET for a URL,
   * each provider's `Retrieve`, the Build handlers a new SDK session starts
   * with, and the outcome of `GetUser` through an IAM client.
   */
  datatype World = World(
    metadataURLVar: string,
    debug: bool,
    probe: string -> ProbeResult,
    retrieve: Provider -> Result<Value>,
    sdkBuildHandlers: seq<string>,
    getUser: ServiceClient -> Option<Error>)

  /** The phases of the bootstrap, in the order they can be reached. */
  datatype Step =
    | RegionCheck
    | MetadataProbe(url: string)
    | CredentialLookup
    | SessionBuild
    | IamClientBuild
    | GetUserCall
    | CognitoClientBuild

  /** Phases that may reach the network (the probe, provider lookups, GetUser). */
  predicate TouchesNetwork(s: Step) {
    s.MetadataProbe? || s.CredentialLookup? || s.GetUserCall?
  }

  /** The provider chain the bootstrap builds for `c`. */
  function Chain(c: Config, w: World): seq<Provider> {
    var url := MetadataURL(w.metadataURLVar);
    ProviderChain(c.accessKey, c.secretKey, c.token, c.profile, c.credsFilename, url, w.probe(url))
  }

  /** The outcome of the one `creds.Get()` call. */
  function Lookup(c: Config, w: World): Result<Value> {
    ChainGet(Chain(c, w), w.retrieve)
  }

  /** The base session, with the user-agent handler pushed to the front of its Build handlers. */
  function BaseSession(c: Config, w: World): Session {
    Session(SessionConfig(ChainCredentials(Chain(c, w)), c.region, c.maxRetries, w.debug, c.insecure),
            "", [UserAgentHandlerName] + w.sdkBuildHandlers)
  }

  /** The IAM client: a copy of the base session with the IAM endpoint override. */
  function IamClient(c: Config, w: World): ServiceClient {
    ServiceClient(Iam, BaseSession(c, w).(endpoint := c.iamEndpoint))
  }

  /** The phases reached when the region and the credential lookup both pass. */
  function FullRun(c: Config, w: World): seq<Step> {
    [RegionCheck, MetadataProbe(MetadataURL(w.metadataURLVar)), CredentialLookup,
     SessionBuild, IamClientBuild, GetUserCall, CognitoClientBuild]
  }

  /**
   * `Config.Client`: returns a client bundle, or no client and the errors
   * recorded (the source wraps a non-empty list in one aggregated error).
   * `steps` lists the phases reached, in order.
   */
  method Client(c: Config, w: World) returns (client: Option<AWSClient>, errs: seq<Error>, steps: seq<Step>)
    // a client or an aggregated error, never both, and never more than one recorded error
    ensures client.None? <==> errs != []
    ensures |errs| <= 1
    // the region check comes first; when it fails nothing else runs
    ensures |steps| > 0 && steps[0] == RegionCheck
    ensures c.region !in ValidRegions ==> errs == [InvalidRegionError(c.region)] && steps == [RegionCheck]
    ensures (exists i :: 0 <= i < |steps| && TouchesNetwork(steps[i])) ==> c.region in ValidRegions
    // a failed lookup stops the bootstrap before any session or client is built
    ensures c.region in ValidRegions && Lookup(c, w).Failure? ==>
      && errs == [CredentialsError(Lookup(c, w).error)]
      && steps == [RegionCheck, MetadataProbe(MetadataURL(w.metadataURLVar)), CredentialLookup]
    // GetUser runs only after a valid region and a successful lookup, and decides the result
    ensures GetUserCall in steps <==> c.region in ValidRegions && Lookup(c, w).Success?
    ensures c.region in ValidRegions && Lookup(c, w).Success? ==>
      && steps == FullRun(c, w)
      && (var v := ValidateCredentials(w.getUser(IamClient(c, w)));
          errs == if v.None? then [] else [v.value])
    // what a returned bundle holds
    ensures client.Some? ==>
      && client.value.region == c.region
      && client.value.iamconn == Some(IamClient(c, w))
      && client.value.ciconn == Some(ServiceClient(CognitoIdentity, BaseSession(c, w)))
    ensures client.Some? ==>
      var iam := client.value.iamconn.value.session;
      var ci := client.value.ciconn.value.session;
      && iam.config == ci.config
      && ci.config.credentials == ChainCredentials(Chain(c, w))
      && ci.config.region == c.region
      && (ci.config.insecureSkipVerify <==> c.insecure)
      && (ci.config.debugLogging <==> w.debug)
      && iam.endpoint == c.iamEndpoint && ci.endpoint == ""
      && iam.buildHandlers[0] == UserAgentHandlerName && ci.buildHandlers[0] == UserAgentHandlerName
  {
    var errors: seq<Error> := [];
    steps := [RegionCheck];
    var err := ValidateRegion(c.region);
    if err.Some? {
      errors := errors + [err.value];
    }

    var built := AWSClient(None, None, "");
    if |errors| == 0 {
      built := built.(region := c.region);

      var creds, metadataURL := GetCreds(c.accessKey, c.secretKey, c.token, c.profile, c.credsFilename,
                                         w.metadataURLVar, w.probe);
      steps := steps + [MetadataProbe(metadataURL)];
      var got := ChainGet(creds.providers, w.retrieve);
      steps := steps + [CredentialLookup];
      if got.Failure? {
        errors := errors + [CredentialsError(got.error)];
        return None, errors, steps;
      }

      var awsConfig := SessionConfig(creds, c.region, c.maxRetries, false, false);
      if w.debug {
        awsConfig := awsConfig.(debugLogging := true);
      }
      if c.insecure {
        awsConfig := awsConfig.(insecureSkipVerify := true);
      }

      var sess := Session(awsConfig, "", w.sdkBuildHandlers);
      sess := sess.(buildHandlers := [UserAgentHandlerName] + sess.buildHandlers);
      steps := steps + [SessionBuild];

      var iamSess := sess.(endpoint := c.iamEndpoint);
      built := built.(iamconn := Some(ServiceClient(Iam, iamSess)));
      steps := steps + [IamClientBuild];

      var getUser := w.getUser(built.iamconn.value);
      steps := steps + [GetUserCall];
      err := ValidateCredentials(getUser);
      if err.Some? {
        errors := errors + [err.value];
      }

      built := built.(ciconn := Some(ServiceClient(CognitoIdentity, sess)));
      steps := steps + [CognitoClientBuild];
    }

    if |errors| > 0 {
      return None, errors, steps;
    }
    return Some(built), [], steps;
  }
}
