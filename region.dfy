/** The region allow-list check, `Config.ValidateRegion` (aws/config.go). */
module Region {
  import opened AwsErrors

  /** The sixteen region codes the provider accepts, in the source's order. */
  const ValidRegions: seq<string> := [
    "ap-northeast-1",
    "ap-northeast-2",
    "ap-south-1",
    "ap-southeast-1",
    "ap-southeast-2",
    "ca-central-1",
    "cn-north-1",
    "eu-central-1",
    "eu-west-1",
    "eu-west-2",
    "sa-east-1",
    "us-east-1",
    "us-east-2",
    "us-gov-west-1",
    "us-west-1",
    "us-west-2"
  ]

  const InvalidRegionPrefix := "Not a valid region: "

  /** The error reported for a region code outside the allow-list. */
  function InvalidRegionError(region: string): Error {
    PlainError(InvalidRegionPrefix + region)
  }

  /**
   * Linear search of the allow-list with an early return on the first match.
   * `None` stands for the nil error.
   */
  method ValidateRegion(region: string) returns (err: Option<Error>)
    ensures err.None? <==> region in ValidRegions
    ensures err.Some? ==> err.value == InvalidRegionError(region)
    ensures err.Some? ==> err.value.text[|InvalidRegionPrefix|..] == region
  {
    for i := 0 to |ValidRegions|
      invariant forall j :: 0 <= j < i ==> ValidRegions[j] != region
    {
      if region == ValidRegions[i] {
        return None;
      }
    }
    return Some(InvalidRegionError(region));
  }
}
