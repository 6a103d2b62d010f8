/**
 * The handler's observable effects: every call it makes to EC2 or to the
 * GitHub API, in the order it makes them.
 */
module Effects {
  import opened Ec2

  /** The external calls the handler makes, in the order it makes them. */
  datatype Call =
    | DescribeInstances(filters: seq<Filter>)
    | RequestRegistrationToken(url: string, authorization: string)
    | DescribeSecurityGroups(filters: seq<Filter>)
    | CreateSecurityGroup(groupName: string, description: string)
    | AuthorizeIngress(groupId: string, permissions: seq<IpPermission>)
    | RunInstances(request: LaunchRequest)
    | WaitUntilRunning(instanceIds: seq<string>, delaySeconds: nat, maxAttempts: nat)
    | TerminateInstances(instanceIds: seq<string>)
}
