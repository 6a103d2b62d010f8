/**
 * The boot script `user_data` and the `run_instances` parameters of the
 * create branch, including the conditional `SecurityGroupIds` key.
 */
module Launch {
  import opened Wrappers
  import opened Text
  import opened Ec2
  import opened Config

  /** Lease length written into the expiry tag, in seconds. */
  const LeaseSeconds := 3600

  /** The lines of the script before the `config.sh` line. */
  const HeadLines := [
    "#!/bin/bash",
    "# Update system and install dependencies (Ubuntu)",
    "apt-get update -y",
    "apt-get install -y git curl tar sudo",
    "",
    "# Create runner user and add to sudoers",
    "useradd -m -s /bin/bash runner",
    @"echo ""runner ALL=(ALL) NOPASSWD:ALL"" >> /etc/sudoers",
    "",
    "# Set up GitHub Actions runner",
    "cd /home/runner",
    "sudo -u runner bash << 'EOF'",
    "mkdir actions-runner && cd actions-runner",
    "curl -o actions-runner-linux-x64-2.320.0.tar.gz -L https://github.com/actions/runner/releases/download/v2.320.0/actions-runner-linux-x64-2.320.0.tar.gz",
    @"echo ""93ac1b7ce743ee85b5d386f5c1787385ef07b3d7c728ff66ce0d3813d5f46900  actions-runner-linux-x64-2.320.0.tar.gz"" | shasum -a 256 -c",
    "tar xzf ./actions-runner-linux-x64-2.320.0.tar.gz"]

  /** The lines after it; the last, empty, one gives the script its final newline. */
  const TailLines := [
    "EOF",
    "",
    "# Install and start as service",
    "cd /home/runner/actions-runner",
    "./svc.sh install runner",
    "./svc.sh start",
    "",
    "# Log the status",
    "./svc.sh status",
    ""]

  /** The two interpolated arguments of `config.sh`. */
  function ConfigArguments(repo: string, token: string): string {
    "--url https://github.com/" + repo + " --token " + token
  }

  /** The line that registers the runner with the repository. */
  function ConfigLine(repo: string, token: string): string {
    "./config.sh " + ConfigArguments(repo, token) + " --unattended --replace --name lambda-runner-$(date +%s)"
  }

  /** Lines joined by newlines. */
  function JoinLines(lines: seq<string>): string {
    if lines == [] then "" else if |lines| == 1 then lines[0] else lines[0] + "\n" + JoinLines(lines[1..])
  }

  lemma {:induction false} JoinAround(head: seq<string>, line: string, tail: seq<string>)
    requires head != [] && tail != []
    ensures JoinLines(head + [line] + tail) == JoinLines(head) + "\n" + line + "\n" + JoinLines(tail)
  {
    if |head| == 1 {
      assert (head + [line] + tail)[1..] == [line] + tail;
      assert ([line] + tail)[1..] == tail;
    } else {
      assert (head + [line] + tail)[1..] == head[1..] + [line] + tail;
      JoinAround(head[1..], line, tail);
    }
  }

  /** A line sits in the text of any line list that holds it between other lines. */
  lemma LineOccursInJoin(head: seq<string>, line: string, tail: seq<string>)
    requires head != [] && tail != []
    ensures Contains(JoinLines(head + [line] + tail), line)
  {
    JoinAround(head, line, tail);
    OccursInMiddle(JoinLines(head) + "\n", line, "\n" + JoinLines(tail));
    assert JoinLines(head) + "\n" + line + "\n" + JoinLines(tail) == (JoinLines(head) + "\n") + line + ("\n" + JoinLines(tail));
  }

  /** The script the instance runs at first boot: fixed lines with the repository and token filled in. */
  function BootScript(repo: string, token: string): (script: string)
    ensures Contains(script, ConfigArguments(repo, token))
  {
    var line := ConfigLine(repo, token);
    LineOccursInJoin(HeadLines, line, TailLines);
    OccursInMiddle("./config.sh ", ConfigArguments(repo, token), " --unattended --replace --name lambda-runner-$(date +%s)");
    ContainsTransitive(JoinLines(HeadLines + [line] + TailLines), line, ConfigArguments(repo, token));
    JoinLines(HeadLines + [line] + TailLines)
  }

  /** Python truthiness of `security_group_id`: None and the empty string are false. */
  predicate Truthy(groupId: Option<string>) {
    groupId.Some? && groupId.value != ""
  }

  /** The launch request of the create branch, built as a dictionary and then extended. */
  method BuildLaunchRequest(settings: Settings, userData: string, expireAt: string, groupId: Option<string>)
    returns (request: LaunchRequest)
    ensures request.imageId == settings.amiId && request.instanceType == settings.instanceType
    ensures request.keyName == settings.keyPairName
    ensures request.minCount == 1 && request.maxCount == 1
    ensures request.tagSpecifications ==
      [TagSpecification("instance", [Tag(InstanceTagKey, InstanceTagValue), Tag(TtlTagKey, expireAt)])]
    ensures request.userData == userData
    ensures request.securityGroupIds.Some? <==> Truthy(groupId)
    ensures request.securityGroupIds.Some? ==> request.securityGroupIds.value == [groupId.value]
  {
    request := LaunchRequest(
      settings.amiId,
      settings.instanceType,
      1,
      1,
      settings.keyPairName,
      [TagSpecification("instance", [Tag(InstanceTagKey, InstanceTagValue), Tag(TtlTagKey, expireAt)])],
      userData,
      None);
    if Truthy(groupId) {
      request := request.(securityGroupIds := Some([groupId.value]));
    }
  }

  /**
   * The request launched for `settings` with registration `token` at time
   * `now` (epoch seconds) and the security group obtained.
   */
  predicate LaunchRequestFor(request: LaunchRequest, settings: Settings, token: string, now: int, groupId: Option<string>) {
    && request.imageId == settings.amiId
    && request.instanceType == settings.instanceType
    && request.keyName == settings.keyPairName
    && request.minCount == 1 && request.maxCount == 1
    && request.tagSpecifications ==
         [TagSpecification("instance", [Tag(InstanceTagKey, InstanceTagValue), Tag(TtlTagKey, IntToDecimal(now + LeaseSeconds))])]
    && request.userData == BootScript(settings.githubRepo, token)
    && request.securityGroupIds == (if Truthy(groupId) then Some([groupId.value]) else None)
  }

  /** The value of the first instance tag with this key. */
  function InstanceTag(request: LaunchRequest, key: string): Option<string> {
    if request.tagSpecifications == [] then None else FirstTag(request.tagSpecifications[0].tags, key)
  }

  function FirstTag(tags: seq<Tag>, key: string): Option<string> {
    if tags == [] then None else if tags[0].key == key then Some(tags[0].value) else FirstTag(tags[1..], key)
  }

  /** The expiry tag reads back as the launch time plus the lease. */
  lemma ExpiryIsLaunchTimePlusLease(request: LaunchRequest, settings: Settings, token: string, now: int, groupId: Option<string>)
    requires LaunchRequestFor(request, settings, token, now, groupId)
    ensures InstanceTag(request, TtlTagKey).Some?
    ensures ParseInt(InstanceTag(request, TtlTagKey).value) == Some(now + LeaseSeconds)
  {
    var tags := request.tagSpecifications[0].tags;
    assert tags[0].key[0] != TtlTagKey[0];
    assert tags[1..] == [Tag(TtlTagKey, IntToDecimal(now + LeaseSeconds))];
    assert FirstTag(tags[1..], TtlTagKey) == Some(IntToDecimal(now + LeaseSeconds));
    assert InstanceTag(request, TtlTagKey) == Some(IntToDecimal(now + LeaseSeconds));
    IntRoundTrip(now + LeaseSeconds);
  }

  /**
   * A launched runner carries the marker tag that discovery filters on, so
   * a later request finds it: one launch makes the existing list non-empty.
   */
  lemma LaunchedRunnerIsDiscoverable(request: LaunchRequest, settings: Settings, token: string, now: int, groupId: Option<string>)
    requires LaunchRequestFor(request, settings, token, now, groupId)
    ensures InstanceTag(request, InstanceTagKey) == Some(InstanceTagValue)
    // the first discovery filter asks for exactly the tag value this request carries
    ensures InstanceTag(request, InstanceTagKey).Some? &&
      RunnerFilters[0] == Filter("tag:" + InstanceTagKey, [InstanceTag(request, InstanceTagKey).value])
  {
  }

  /** The boot script registers the runner against the configured repository with the fetched token. */
  lemma BootScriptRegistersRunner(request: LaunchRequest, settings: Settings, token: string, now: int, groupId: Option<string>)
    requires LaunchRequestFor(request, settings, token, now, groupId)
    ensures Contains(request.userData, "--url https://github.com/" + settings.githubRepo + " --token " + token)
  {
  }
}
