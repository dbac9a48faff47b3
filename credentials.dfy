/**
 * The credential provider chain: `getCreds` (aws/config.go) and the SDK's
 * chain resolution that `creds.Get()` runs over it.
 */
module Credentials {
  import opened AwsErrors

  /** An access key, secret key and session token. */
  datatype Value = Value(accessKeyId: string, secretAccessKey: string, sessionToken: string)

  /** The credential sources `getCreds` can put in the chain. */
  datatype Provider =
    | Static(value: Value)
    | Env
    | SharedCredentials(filename: string, profile: string)
    | EC2Role(endpoint: string)

  /** The SDK credentials object built over an ordered provider list. */
  datatype Credentials = ChainCredentials(providers: seq<Provider>)

  /**
   * The outcome of the timed GET to the metadata service: a transport error
   * or timeout, or a response with the values of its `Server` header (an
   * empty sequence when the header is absent).
   */
  datatype ProbeResult = Failed | Responded(server: seq<string>)

  const DefaultMetadataURL := "http://169.254.169.254:80/latest"

  /** The metadata base URL: the `AWS_METADATA_URL` value unless it is empty. */
  function MetadataURL(metadataURLVar: string): string {
    if metadataURLVar == "" then DefaultMetadataURL else metadataURLVar
  }

  /** `sub` occurs in `s` starting at offset `i`. */
  predicate OccursAt(s: string, sub: string, i: int) {
    0 <= i <= |s| - |sub| && s[i..i + |sub|] == sub
  }

  /** `strings.Contains`: `sub` occurs in `s` at some offset. */
  function Contains(s: string, sub: string): (b: bool)
    ensures b <==> exists i :: OccursAt(s, sub, i)
    decreases |s|
  {
    if |sub| > |s| then false
    else if s[..|sub|] == sub then
      assert OccursAt(s, sub, 0);
      true
    else
      var b := Contains(s[1..], sub);
      assert forall i :: OccursAt(s[1..], sub, i) <==> OccursAt(s, sub, i + 1) by {
        forall i ensures OccursAt(s[1..], sub, i) <==> OccursAt(s, sub, i + 1) {
          if 0 <= i <= |s| - 1 - |sub| {
            assert s[1..][i..i + |sub|] == s[i + 1..i + 1 + |sub|];
          }
        }
      }
      assert !OccursAt(s, sub, 0);
      assert (exists i :: OccursAt(s, sub, i)) ==> exists i :: OccursAt(s[1..], sub, i) by {
        if exists i :: OccursAt(s, sub, i) {
          var i :| OccursAt(s, sub, i);
          assert OccursAt(s[1..], sub, i - 1);
        }
      }
      b
  }

  /** The response identifies the EC2 metadata service: its first `Server` value contains "EC2". */
  predicate MetadataEligible(probe: ProbeResult) {
    probe.Responded? && |probe.server| > 0 && Contains(probe.server[0], "EC2")
  }

  /** The provider list `getCreds` builds, given the URL it probed and the probe's outcome. */
  function ProviderChain(key: string, secret: string, token: string, profile: string, credsfile: string,
                         metadataURL: string, probe: ProbeResult): seq<Provider>
  {
    [Static(Value(key, secret, token)), Env, SharedCredentials(credsfile, profile)]
      + (if MetadataEligible(probe) then [EC2Role(metadataURL)] else [])
  }

  /**
   * `getCreds`: builds the ordered chain and appends the EC2-role provider
   * only when the metadata probe identifies the EC2 metadata service. The
   * HTTP GET is the input `get`; the URL it was sent to is returned as
   * `probedURL`.
   */
  method GetCreds(key: string, secret: string, token: string, profile: string, credsfile: string,
                  metadataURLVar: string, get: string -> ProbeResult)
    returns (creds: Credentials, probedURL: string)
    ensures probedURL == MetadataURL(metadataURLVar)
    ensures metadataURLVar != "" ==> probedURL == metadataURLVar
    ensures metadataURLVar == "" ==> probedURL == DefaultMetadataURL
    ensures creds.providers == ProviderChain(key, secret, token, profile, credsfile, probedURL, get(probedURL))
    ensures |creds.providers| == (if MetadataEligible(get(probedURL)) then 4 else 3)
    ensures creds.providers[..3] == [Static(Value(key, secret, token)), Env, SharedCredentials(credsfile, profile)]
    ensures |creds.providers| == 4 ==> creds.providers[3] == EC2Role(probedURL)
    ensures get(probedURL).Failed? ==> |creds.providers| == 3
  {
    var providers := [Static(Value(key, secret, token)), Env, SharedCredentials(credsfile, profile)];
    var metadataURL := metadataURLVar;
    if metadataURL == "" {
      metadataURL := DefaultMetadataURL;
    }
    var r := get(metadataURL);
    var useIAM := false;
    if r.Responded? {
      if |r.server| > 0 && Contains(r.server[0], "EC2") {
        useIAM := true;
      }
    }
    if useIAM {
      providers := providers + [EC2Role(metadataURL)];
    }
    creds := ChainCredentials(providers);
    probedURL := metadataURL;
  }

  /** The error the SDK's chain reports when no provider yields credentials. */
  const NoValidProviders := AwsError("NoCredentialProviders", "NoCredentialProviders: no valid providers in chain")

  /**
   * `creds.Get()` over a chain, as assumed of the SDK: each provider's
   * `Retrieve` (the input `retrieve`) is tried in order, the first success
   * is the result, and when all fail the chain reports `NoValidProviders`.
   */
  function ChainGet(providers: seq<Provider>, retrieve: Provider -> Result<Value>): (r: Result<Value>)
    ensures r.Failure? <==> forall j :: 0 <= j < |providers| ==> retrieve(providers[j]).Failure?
    ensures r.Failure? ==> r.error == NoValidProviders
  {
    if providers == [] then Failure(NoValidProviders)
    else match retrieve(providers[0])
      case Success(v) => Success(v)
      case Failure(_) =>
        var r := ChainGet(providers[1..], retrieve);
        assert forall j :: 1 <= j < |providers| ==> providers[1..][j - 1] == providers[j];
        r
  }

  /** The first provider that yields credentials decides the result; later ones are never consulted. */
  lemma {:induction false} ChainGetFirstWins(providers: seq<Provider>, retrieve: Provider -> Result<Value>, k: nat)
    requires k < |providers| && retrieve(providers[k]).Success?
    requires forall j :: 0 <= j < k ==> retrieve(providers[j]).Failure?
    ensures ChainGet(providers, retrieve) == retrieve(providers[k])
  {
    if k > 0 {
      assert retrieve(providers[0]).Failure?;
      assert forall j :: 0 <= j < k - 1 ==> providers[1..][j] == providers[j + 1];
      ChainGetFirstWins(providers[1..], retrieve, k - 1);
    }
  }

  /** Explicit static credentials that the static provider accepts win over every other source. */
  lemma StaticCredentialsWin(key: string, secret: string, token: string, profile: string, credsfile: string,
                             metadataURL: string, probe: ProbeResult, retrieve: Provider -> Result<Value>)
    requires retrieve(Static(Value(key, secret, token))) == Success(Value(key, secret, token))
    ensures ChainGet(ProviderChain(key, secret, token, profile, credsfile, metadataURL, probe), retrieve)
         == Success(Value(key, secret, token))
  {
    ChainGetFirstWins(ProviderChain(key, secret, token, profile, credsfile, metadataURL, probe), retrieve, 0);
  }

  const NoSourcesHeadline := "No valid credential sources found" + " for AWS Provider."

  /** The guidance reported when no credential source yields credentials. */
  const NoCredentialsGuidance := NoSourcesHeadline + "\n  Please see https://terraform.io/docs/providers/aws/index.html for more information on\n  providing credentials for the AWS Provider"

  const LoadErrorPrefix := "Error loading credentials for AWS Provider: "

  /**
   * The error `Client` records when `creds.Get()` fails: fixed guidance for
   * an exhausted chain, otherwise the cause behind a fixed prefix.
   */
  function CredentialsError(err: Error): (r: Error)
    ensures r.PlainError?
    ensures r.text == NoCredentialsGuidance <==> err.AwsError? && err.code == "NoCredentialProviders"
    ensures r.text != NoCredentialsGuidance ==>
      |LoadErrorPrefix| <= |r.text| && r.text[..|LoadErrorPrefix|] == LoadErrorPrefix
      && r.text[|LoadErrorPrefix|..] == err.text
  {
    if err.AwsError? && err.code == "NoCredentialProviders" then
      PlainError(NoCredentialsGuidance)
    else
      var r := PlainError(LoadErrorPrefix + err.text);
      assert LoadErrorPrefix[0] == 'E' && NoSourcesHeadline[0] == 'N';
      assert r.text[0] == LoadErrorPrefix[0] && NoCredentialsGuidance[0] == NoSourcesHeadline[0];
      r
  }

  /**
   * With no static, environment or shared-file credentials and a probe that
   * does not identify the metadata service, resolution reports that no
   * credential source was found.
   */
  lemma NoSourcesWithoutMetadata(key: string, secret: string, token: string, profile: string, credsfile: string,
                                 metadataURL: string, probe: ProbeResult, retrieve: Provider -> Result<Value>)
    requires !MetadataEligible(probe)
    requires retrieve(Static(Value(key, secret, token))).Failure? && retrieve(Env).Failure?
    requires retrieve(SharedCredentials(credsfile, profile)).Failure?
    ensures ChainGet(ProviderChain(key, secret, token, profile, credsfile, metadataURL, probe), retrieve).Failure?
    ensures CredentialsError(ChainGet(ProviderChain(key, secret, token, profile, credsfile, metadataURL, probe), retrieve).error)
         == PlainError(NoCredentialsGuidance)
  {
    var chain := ProviderChain(key, secret, token, profile, credsfile, metadataURL, probe);
    assert chain == [Static(Value(key, secret, token)), Env, SharedCredentials(credsfile, profile)];
  }
}
