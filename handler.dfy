/**
 * `lambda_handler`: one invocation, from the event to the response. The
 * results of the external calls (EC2, the GitHub registration-token request,
 * the clock, the waiter) are an input record; what the handler does with
 * the outside world is the list of calls it issues, in order.
 */
module Handler {
  import opened Wrappers
  import opened Text
  import opened Config
  import opened Ec2
  import opened Effects
  import opened SecurityGroup
  import opened Launch
  import opened Routing

  const WaiterDelaySeconds := 5
  const WaiterMaxAttempts := 6

  /** What each external call would return during this invocation. */
  datatype CloudOutcomes = CloudOutcomes(
    reservations: Option<seq<Reservation>>,   // None: describe_instances raised
    registrationToken: Option<string>,        // None: the token request failed
    now: int,                                 // int(time.time())
    groupLookup: Lookup,
    groupCreation: Creation,
    ingressAuthorized: bool,
    launchedInstanceId: Option<string>,       // None: run_instances raised
    runningInTime: bool,                      // false: the waiter gave up
    terminated: bool)                         // false: terminate_instances raised

  datatype Body =
    | Plain(text: string)
    | RunnerCreated(message: string, instanceId: string)
    | RunnerDestroyed(message: string, instances: seq<string>)

  /** An unhandled exception and where it came from. */
  datatype FaultKind =
    | MalformedEvent | DiscoveryFailed | PathNotText | TokenRequestFailed | LaunchFailed | WaitTimedOut | TerminateFailed

  datatype Outcome = Reply(statusCode: int, body: Body) | Fault(kind: FaultKind)

  const InvalidRequest := Reply(400, Plain("Invalid request"))
  const AlreadyExists := Reply(400, Plain("Runner already exists."))
  const NoRunner := Reply(404, Plain("No runner exists."))

  const Discover := DescribeInstances(RunnerFilters)

  const TokenUrlPrefix := "https://api.github.com/repos/"
  const TokenUrlSuffix := "/actions/runners/registration-token"

  /** The registration-token endpoint for a repository; the repository can be read back from it. */
  function TokenUrl(repo: string): (url: string)
    ensures StartsWith(url, TokenUrlPrefix) && EndsWith(url, TokenUrlSuffix)
    ensures |url| == |TokenUrlPrefix| + |repo| + |TokenUrlSuffix|
    ensures url[|TokenUrlPrefix|..|url| - |TokenUrlSuffix|] == repo
  {
    TokenUrlPrefix + repo + TokenUrlSuffix
  }

  /** The token `POST`: it goes to the configured repository's endpoint and carries the configured token. */
  function TokenRequest(settings: Settings): (r: Call)
    ensures r.RequestRegistrationToken?
    ensures StartsWith(r.url, TokenUrlPrefix) && EndsWith(r.url, TokenUrlSuffix)
    ensures |r.url| == |TokenUrlPrefix| + |settings.githubRepo| + |TokenUrlSuffix|
    ensures r.url[|TokenUrlPrefix|..|r.url| - |TokenUrlSuffix|] == settings.githubRepo
    ensures StartsWith(r.authorization, "Bearer ") && r.authorization[7..] == settings.githubToken
  {
    RequestRegistrationToken(TokenUrl(settings.githubRepo), "Bearer " + settings.githubToken)
  }

  /** The event was probed, discovery answered and the path is a string routed to `route`. */
  predicate Routed(event: map<string, Json>, cloud: CloudOutcomes, route: Route) {
    && ExtractMethod(event).Some?
    && cloud.reservations.Some?
    && ExtractPath(event).JString?
    && RouteOf(ExtractPath(event).s, ExtractMethod(event).value) == route
  }

  function Existing(cloud: CloudOutcomes): seq<Instance>
    requires cloud.reservations.Some?
  {
    Flatten(cloud.reservations.value)
  }

  /**
   * The create flow once discovery found no runner: token request, security
   * group, one launch of the runner request, the wait, and the reply.
   */
  predicate CreateFlow(settings: Settings, cloud: CloudOutcomes, outcome: Outcome, calls: seq<Call>) {
    var prefix := [TokenRequest(settings)];
    if cloud.registrationToken.None? then
      outcome == Fault(TokenRequestFailed) && calls == prefix
    else
      var group := GetOrCreateSecurityGroup(cloud.groupLookup, cloud.groupCreation, cloud.ingressAuthorized);
      var k := |prefix| + |group.calls|;
      && |calls| > k
      && calls[..k] == prefix + group.calls
      && calls[k].RunInstances?
      && LaunchRequestFor(calls[k].request, settings, cloud.registrationToken.value, cloud.now, group.groupId)
      && match cloud.launchedInstanceId
         case None => outcome == Fault(LaunchFailed) && |calls| == k + 1
         case Some(id) =>
           && calls[k + 1..] == [WaitUntilRunning([id], WaiterDelaySeconds, WaiterMaxAttempts)]
           && outcome == if cloud.runningInTime then Reply(200, RunnerCreated("Runner created", id)) else Fault(WaitTimedOut)
  }

  /**
   * A security group that could not be created or opened does not stop the
   * create flow: one launch request still goes out, without `SecurityGroupIds`.
   */
  lemma LaunchWithoutGroup(settings: Settings, cloud: CloudOutcomes, outcome: Outcome, calls: seq<Call>)
    requires CreateFlow(settings, cloud, outcome, calls) && cloud.registrationToken.Some?
    requires !Found(cloud.groupLookup) && !(cloud.groupCreation.Created? && cloud.ingressAuthorized)
    ensures exists k :: 0 <= k < |calls| && calls[k].RunInstances? && calls[k].request.securityGroupIds.None?
  {
  }

  /** The create branch after the existence check. */
  method CreateRunner(settings: Settings, cloud: CloudOutcomes) returns (outcome: Outcome, calls: seq<Call>)
    ensures |calls| >= 1 && calls[0] == TokenRequest(settings)
    ensures CreateFlow(settings, cloud, outcome, calls)
  {
    calls := [TokenRequest(settings)];
    if cloud.registrationToken.None? {
      return Fault(TokenRequestFailed), calls;
    }
    var token := cloud.registrationToken.value;
    var expireAt := IntToDecimal(cloud.now + LeaseSeconds);
    var group := GetOrCreateSecurityGroup(cloud.groupLookup, cloud.groupCreation, cloud.ingressAuthorized);
    calls := calls + group.calls;
    var userData := BootScript(settings.githubRepo, token);
    var request := BuildLaunchRequest(settings, userData, expireAt, group.groupId);
    assert LaunchRequestFor(request, settings, token, cloud.now, group.groupId);
    ghost var k := |calls|;
    calls := calls + [RunInstances(request)];
    assert calls[..k] == [TokenRequest(settings)] + group.calls && calls[k] == RunInstances(request);
    if cloud.launchedInstanceId.None? {
      return Fault(LaunchFailed), calls;
    }
    var id := cloud.launchedInstanceId.value;
    calls := calls + [WaitUntilRunning([id], WaiterDelaySeconds, WaiterMaxAttempts)];
    if !cloud.runningInTime {
      return Fault(WaitTimedOut), calls;
    }
    outcome := Reply(200, RunnerCreated("Runner created", id));
  }

  /** The destroy branch, given the discovered instances and whether the terminate call went through. */
  method DestroyRunners(existing: seq<Instance>, terminated: bool) returns (outcome: Outcome, calls: seq<Call>)
    ensures existing == [] ==> outcome == NoRunner && calls == []
    ensures existing != [] ==>
      var ids := InstanceIds(existing);
      && calls == [TerminateInstances(ids)]
      && outcome == if terminated then Reply(200, RunnerDestroyed("Runner destroyed", ids)) else Fault(TerminateFailed)
  {
    if existing == [] {
      return NoRunner, [];
    }
    var ids := InstanceIds(existing);
    calls := [TerminateInstances(ids)];
    if !terminated {
      return Fault(TerminateFailed), calls;
    }
    outcome := Reply(200, RunnerDestroyed("Runner destroyed", ids));
  }

  method LambdaHandler(settings: Settings, event: map<string, Json>, cloud: CloudOutcomes)
    returns (outcome: Outcome, calls: seq<Call>)
    // the method probe raises before anything is called
    ensures ExtractMethod(event).None? ==> outcome == Fault(MalformedEvent) && calls == []
    ensures ExtractMethod(event).Some? ==> |calls| >= 1 && calls[0] == Discover
    ensures ExtractMethod(event).Some? && cloud.reservations.None? ==> outcome == Fault(DiscoveryFailed) && calls == [Discover]
    ensures ExtractMethod(event).Some? && cloud.reservations.Some? && !ExtractPath(event).JString? ==>
      outcome == Fault(PathNotText) && calls == [Discover]
    // an unrecognised request is refused whatever instances exist
    ensures Routed(event, cloud, InvalidRoute) ==> outcome == InvalidRequest && calls == [Discover]
    // at most one runner: create is refused, with no token request and no launch
    ensures Routed(event, cloud, CreateRoute) && Existing(cloud) != [] ==> outcome == AlreadyExists && calls == [Discover]
    // otherwise discovery is followed by the create flow
    ensures Routed(event, cloud, CreateRoute) && Existing(cloud) == [] ==>
      |calls| >= 1 && calls[0] == Discover && CreateFlow(settings, cloud, outcome, calls[1..])
    // destroy terminates every discovered instance, in discovery order, in one call
    ensures Routed(event, cloud, DestroyRoute) && Existing(cloud) == [] ==> outcome == NoRunner && calls == [Discover]
    ensures Routed(event, cloud, DestroyRoute) && Existing(cloud) != [] ==>
      var ids := InstanceIds(Existing(cloud));
      && calls == [Discover, TerminateInstances(ids)]
      && outcome == if cloud.terminated then Reply(200, RunnerDestroyed("Runner destroyed", ids)) else Fault(TerminateFailed)
  {
    var path := ExtractPath(event);
    var verb := ExtractMethod(event);
    if verb.None? {
      return Fault(MalformedEvent), [];
    }
    calls := [Discover];
    if cloud.reservations.None? {
      return Fault(DiscoveryFailed), calls;
    }
    var existing := FindExistingInstances(cloud.reservations.value);
    if !path.JString? {
      return Fault(PathNotText), calls;
    }
    var route := RouteOf(path.s, verb.value);
    if route == CreateRoute {
      if existing != [] {
        return AlreadyExists, calls;
      }
      var created;
      outcome, created := CreateRunner(settings, cloud);
      calls := calls + created;
    } else if route == DestroyRoute {
      var terminated;
      outcome, terminated := DestroyRunners(existing, cloud.terminated);
      calls := calls + terminated;
    } else {
      outcome := InvalidRequest;
    }
  }
}
