/**
 * The EC2 side as the handler sees it: the values it sends and receives,
 * and instance discovery `find_existing_instance`, which flattens the
 * reservations of a `describe_instances` response.
 */
module Ec2 {
  import opened Wrappers

  const InstanceTagKey := "GitHubRunner"
  const InstanceTagValue := "True"
  const TtlTagKey := "ExpireAt"

  datatype Filter = Filter(name: string, values: seq<string>)
  datatype Tag = Tag(key: string, value: string)
  datatype TagSpecification = TagSpecification(resourceType: string, tags: seq<Tag>)
  datatype IpPermission = IpPermission(protocol: string, fromPort: nat, toPort: nat, cidrIp: string, description: string)

  /** The keyword arguments of `run_instances`; `securityGroupIds` is None when the key is absent. */
  datatype LaunchRequest = LaunchRequest(
    imageId: string,
    instanceType: string,
    minCount: int,
    maxCount: int,
    keyName: string,
    tagSpecifications: seq<TagSpecification>,
    userData: string,
    securityGroupIds: Option<seq<string>>)

  datatype Instance = Instance(instanceId: string)
  datatype Reservation = Reservation(instances: seq<Instance>)

  /** Discovery asks for instances with the marker tag that are pending or running. */
  const RunnerFilters := [Filter("tag:" + InstanceTagKey, [InstanceTagValue]),
                          Filter("instance-state-name", ["pending", "running"])]

  /** All instances of all reservations, reservation by reservation. */
  function Flatten(reservations: seq<Reservation>): seq<Instance> {
    if reservations == [] then [] else reservations[0].instances + Flatten(reservations[1..])
  }

  lemma {:induction false} FlattenAppend(a: seq<Reservation>, b: seq<Reservation>)
    ensures Flatten(a + b) == Flatten(a) + Flatten(b)
  {
    if a == [] {
      assert a + b == b;
    } else {
      assert (a + b)[1..] == a[1..] + b;
      FlattenAppend(a[1..], b);
    }
  }

  /** An instance is discovered exactly when some reservation holds it. */
  lemma {:induction false} FlattenHoldsExactly(reservations: seq<Reservation>, x: Instance)
    ensures x in Flatten(reservations)
        <==> exists k :: 0 <= k < |reservations| && x in reservations[k].instances
  {
    if reservations != [] {
      FlattenHoldsExactly(reservations[1..], x);
      if x in Flatten(reservations[1..]) {
        var k :| 0 <= k < |reservations[1..]| && x in reservations[1..][k].instances;
        assert x in reservations[k + 1].instances;
      }
      if exists k :: 0 <= k < |reservations| && x in reservations[k].instances {
        var k :| 0 <= k < |reservations| && x in reservations[k].instances;
        if k > 0 {
          assert x in reservations[1..][k - 1].instances;
        }
      }
    }
  }

  /** No instance is lost or invented: the count is the sum over reservations. */
  function TotalInstances(reservations: seq<Reservation>): nat {
    if reservations == [] then 0 else |reservations[0].instances| + TotalInstances(reservations[1..])
  }

  lemma {:induction false} FlattenLength(reservations: seq<Reservation>)
    ensures |Flatten(reservations)| == TotalInstances(reservations)
  {
    if reservations != [] {
      FlattenLength(reservations[1..]);
    }
  }

  /** `find_existing_instance` after the `describe_instances` call: the nested appending loops. */
  method FindExistingInstances(reservations: seq<Reservation>) returns (instances: seq<Instance>)
    ensures instances == Flatten(reservations)
  {
    instances := [];
    var i := 0;
    while i < |reservations|
      invariant 0 <= i <= |reservations|
      invariant instances == Flatten(reservations[..i])
    {
      var j := 0;
      while j < |reservations[i].instances|
        invariant 0 <= j <= |reservations[i].instances|
        invariant instances == Flatten(reservations[..i]) + reservations[i].instances[..j]
      {
        instances := instances + [reservations[i].instances[j]];
        j := j + 1;
      }
      assert reservations[..i + 1] == reservations[..i] + [reservations[i]];
      FlattenAppend(reservations[..i], [reservations[i]]);
      assert Flatten([reservations[i]]) == reservations[i].instances;
      i := i + 1;
    }
    assert reservations[..i] == reservations;
  }

  /** The instance ids, one per instance and in the same order. */
  function InstanceIds(instances: seq<Instance>): (ids: seq<string>)
    ensures |ids| == |instances|
    ensures forall k :: 0 <= k < |ids| ==> ids[k] == instances[k].instanceId
  {
    seq(|instances|, k requires 0 <= k < |instances| => instances[k].instanceId)
  }

  /** An id is terminated on destroy exactly when some reservation holds an instance with it. */
  lemma DiscoveredIds(reservations: seq<Reservation>, id: string)
    ensures id in InstanceIds(Flatten(reservations))
        <==> exists k, x :: 0 <= k < |reservations| && x in reservations[k].instances && x.instanceId == id
  {
    var all := Flatten(reservations);
    var ids := InstanceIds(all);
    if id in ids {
      var n :| 0 <= n < |ids| && ids[n] == id;
      FlattenHoldsExactly(reservations, all[n]);
    }
    if exists k, x :: 0 <= k < |reservations| && x in reservations[k].instances && x.instanceId == id {
      var k, x :| 0 <= k < |reservations| && x in reservations[k].instances && x.instanceId == id;
      FlattenHoldsExactly(reservations, x);
      var n :| 0 <= n < |all| && all[n] == x;
      assert ids[n] == id;
    }
  }
}
