/**
 * `get_or_create_security_group`: look the runner group up by name and use
 * the first match; otherwise create it and open ports 22, 80 and 443 to any
 * address. A failed lookup falls through to creation; a failure while
 * creating or authorizing is swallowed and yields no group.
 */
module SecurityGroup {
  import opened Wrappers
  import opened Ec2
  import opened Effects

  const SecurityGroupName := "github-runner-sg"
  const GroupDescription := "Security group for GitHub Actions runners"
  const GroupNameFilter := [Filter("group-name", [SecurityGroupName])]

  const IngressRules := [
    IpPermission("tcp", 22, 22, "0.0.0.0/0", "SSH"),
    IpPermission("tcp", 80, 80, "0.0.0.0/0", "HTTP"),
    IpPermission("tcp", 443, 443, "0.0.0.0/0", "HTTPS")]

  /** What `describe_security_groups` did: raised, or returned these group ids. */
  datatype Lookup = LookupRaised | LookupReturned(groupIds: seq<string>)

  /** What `create_security_group` did: raised, or created the group with this id. */
  datatype Creation = CreationRaised | Created(groupId: string)

  /** The group the launch uses (None: the `None` fallback) and the calls that found it. */
  datatype Ensured = Ensured(groupId: Option<string>, calls: seq<Call>)

  /** The lookup found at least one group. */
  predicate Found(lookup: Lookup) {
    lookup.LookupReturned? && lookup.groupIds != []
  }

  function GetOrCreateSecurityGroup(lookup: Lookup, creation: Creation, ingressAuthorized: bool): (r: Ensured)
    ensures |r.calls| >= 1 && r.calls[0] == DescribeSecurityGroups(GroupNameFilter)
    // a group found by name is used as it is; nothing is created
    ensures Found(lookup) ==> r.groupId == Some(lookup.groupIds[0]) && |r.calls| == 1
    // otherwise creation is attempted, and rules are added only to a created group
    ensures !Found(lookup) <==> CreateSecurityGroup(SecurityGroupName, GroupDescription) in r.calls
    ensures (exists g :: AuthorizeIngress(g, IngressRules) in r.calls) <==> !Found(lookup) && creation.Created?
    // a group is returned exactly when one was found, or created and opened
    ensures r.groupId.Some? <==> Found(lookup) || (creation.Created? && ingressAuthorized)
    ensures !Found(lookup) && r.groupId.Some? ==> r.groupId == Some(creation.groupId)
    // after a failed lookup: describe, create, then authorize the created group and no other
    ensures !Found(lookup) ==>
      r.calls == [DescribeSecurityGroups(GroupNameFilter), CreateSecurityGroup(SecurityGroupName, GroupDescription)]
        + (if creation.Created? then [AuthorizeIngress(creation.groupId, IngressRules)] else [])
  {
    var describe := DescribeSecurityGroups(GroupNameFilter);
    if Found(lookup) then Ensured(Some(lookup.groupIds[0]), [describe])
    else
      var create := CreateSecurityGroup(SecurityGroupName, GroupDescription);
      match creation
        case CreationRaised => Ensured(None, [describe, create])
        case Created(id) =>
          var authorize := AuthorizeIngress(id, IngressRules);
          Ensured(if ingressAuthorized then Some(id) else None, [describe, create, authorize])
  }
}
