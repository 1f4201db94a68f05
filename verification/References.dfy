// References between stored resources: security groups of instances, VPCs of subnets and roles of
// policy attachments, over runs of the EC2, SG, VPC and IAM handlers.
module References {
  import opened Wrappers
  import opened StoreKeys
  import opened MemoryStore
  import opened Strings
  import EC2 = RunInstances

  const KIND_VPC := ServiceKind("aws", "vpc", "vpc")
  const KIND_SUBNET := ServiceKind("aws", "vpc", "subnet")
  const KIND_ROLE := ServiceKind("aws", "iam", "role")
  const KIND_ROLE_POLICY_ATTACHMENT := ServiceKind("aws", "iam", "role-policy-attachment")

  datatype Response = Done | Refused(status: int, code: string)

  /** The kinds of references; each goes from resources of one kind to resources of another. */
  datatype Link = GroupOfInstance | VpcOfSubnet | RoleOfAttachment

  function Child(link: Link): string
  {
    match link
    case GroupOfInstance => EC2.KIND_INSTANCE
    case VpcOfSubnet => KIND_SUBNET
    case RoleOfAttachment => KIND_ROLE_POLICY_ATTACHMENT
  }

  function Parent(link: Link): string
  {
    match link
    case GroupOfInstance => EC2.KIND_SECURITY_GROUP
    case VpcOfSubnet => KIND_VPC
    case RoleOfAttachment => KIND_ROLE
  }

  function Field(link: Link): string
  {
    match link
    case GroupOfInstance => "SecurityGroupIds"
    case VpcOfSubnet => "VpcId"
    case RoleOfAttachment => "RoleName"
  }

  /** How the handlers compare the field of the link with an ID. */
  predicate Mentions(link: Link, v: SpecValue, id: string)
  {
    match link
    case GroupOfInstance => v.TextList? && id in v.items
    case VpcOfSubnet => Show(v) == id
    case RoleOfAttachment => v == Text(id)
  }

  /** The resource names this ID in the field of the link. */
  predicate Names(link: Link, r: Resource, id: string)
  {
    && r.kind == Child(link)
    && r.spec.Some? && Field(link) in r.spec.value && Mentions(link, r.spec.value[Field(link)], id)
  }

  predicate Referenced(data: Data, link: Link, id: string)
  {
    exists k <- data :: Names(link, data[k], id)
  }

  /** Every named resource exists. */
  ghost predicate Intact(data: Data, link: Link)
  {
    forall k <- data, id | Names(link, data[k], id) :: StoreKey(Parent(link), id) in data
  }

  ghost predicate AllIntact(data: Data)
  {
    forall link: Link :: Intact(data, link)
  }

  lemma PutKeepsIntact(data: Data, r: Resource, link: Link)
    requires Intact(data, link)
    requires forall id | Names(link, r, id) :: StoreKey(Parent(link), id) in data
    ensures Intact(data[KeyOf(r) := r], link)
  {
    hide Names, KeyOf, StoreKey, Parent;
  }

  /** Deleting a resource keeps a link intact if and only if no other resource names it. */
  lemma DeleteKeepsIntactExactlyWhen(data: Data, kind: string, id: string, link: Link)
    requires WellKeyed(data) && Intact(data, link) && kind == Parent(link)
    ensures Intact(data - {StoreKey(kind, id)}, link) <==> !Referenced(data, link, id)
  {
    hide WellKeyed, Names;
    if k :| k in data && Names(link, data[k], id) {
      ChildIsNoParent(data, link, k, id);
      assert k in data - {StoreKey(kind, id)};
    } else {
      forall k, other | k in data && Names(link, data[k], other)
        ensures StoreKey(kind, other) in data - {StoreKey(kind, id)}
      {
        assert other != id;
        if StoreKey(kind, other) == StoreKey(kind, id) {
          SameSplit(kind, other, kind, id);
        }
      }
    }
  }

  lemma ChildIsNoParent(data: Data, link: Link, k: string, id: string)
    requires WellKeyed(data) && k in data && Names(link, data[k], id)
    ensures k != StoreKey(Parent(link), id)
  {
    KindsHaveTwoColons(link);
    if k == StoreKey(Parent(link), id) {
      KeyDeterminesPair(data[k].kind, data[k].id, Parent(link), id);
    }
  }

  lemma KindsHaveTwoColons(link: Link)
    ensures IsServiceKind(Child(link)) && IsServiceKind(Parent(link)) && Child(link) != Parent(link)
  {
    hide IsServiceKind;
    match link
    case GroupOfInstance =>
      ServiceKindHasTwoColons("aws", "ec2", "instance");
      ServiceKindHasTwoColons("aws", "ec2", "security-group");
    case VpcOfSubnet =>
      ServiceKindHasTwoColons("aws", "vpc", "subnet");
      ServiceKindHasTwoColons("aws", "vpc", "vpc");
    case RoleOfAttachment =>
      ServiceKindHasTwoColons("aws", "iam", "role-policy-attachment");
      ServiceKindHasTwoColons("aws", "iam", "role");
  }

  lemma DeleteOtherKeepsIntact(data: Data, kind: string, id: string, link: Link)
    requires Intact(data, link) && IsServiceKind(kind) && kind != Parent(link)
    ensures Intact(data - {StoreKey(kind, id)}, link)
  {
    hide Names, IsServiceKind, Parent;
    forall k, other | k in data && Names(link, data[k], other)
      ensures StoreKey(Parent(link), other) != StoreKey(kind, id)
    {
      KindsHaveTwoColons(link);
      OtherKindOtherKey(kind, id, Parent(link), other);
    }
  }

  lemma OtherKindOtherKey(k1: string, i1: string, k2: string, i2: string)
    requires IsServiceKind(k1) && IsServiceKind(k2) && k1 != k2
    ensures StoreKey(k1, i1) != StoreKey(k2, i2)
  {
    if StoreKey(k1, i1) == StoreKey(k2, i2) {
      KeyDeterminesPair(k1, i1, k2, i2);
    }
  }

  // ---------------------------------------------------------------- the handlers

  /** What a create handler draws from outside: the generated ID, if generation succeeds, and the time. */
  datatype Draw = Draw(id: Option<string>, region: string, now: int)

  function NewResource(kind: string, id: string, provider: string, service: string, region: string, status: string,
                       now: int, spec: map<string, SpecValue>): Resource
  {
    Resource(kind, id, provider, service, region, None, Some(spec), status, now, now, "")
  }

  function NewVpc(cidr: string, network: string, id: string, d: Draw): Resource
  {
    NewResource(KIND_VPC, "vpc-" + id, "aws", "vpc", d.region, "available", d.now,
                map["CidrBlock" := Text(cidr), "NetworkID" := Text(network)])
  }

  function NewSubnet(cidr: string, vpc: string, id: string, d: Draw): Resource
  {
    NewResource(KIND_SUBNET, "subnet-" + id, "aws", "vpc", d.region, "available", d.now,
                map["CidrBlock" := Text(cidr), "VpcId" := Text(vpc)])
  }

  function NewGroup(name: string, description: string, vpc: string, id: string, d: Draw): Resource
  {
    NewResource(EC2.KIND_SECURITY_GROUP, "sg-" + id, "aws", "sg", d.region, "available", d.now,
                map["GroupName" := Text(name), "Description" := Text(description), "VpcId" := Text(vpc)])
  }

  function NewRole(name: string, now: int): Resource
  {
    NewResource(KIND_ROLE, name, "aws", "iam", "", "active", now, map["RoleName" := Text(name)])
  }

  function AttachmentID(role: string, policy: string): string
  {
    role + ":" + policy
  }

  /** The resource says that the policy is attached to the role. */
  predicate IsAttachment(r: Resource, role: string, policy: string)
  {
    && r.kind == KIND_ROLE_POLICY_ATTACHMENT && r.spec.Some?
    && "RoleName" in r.spec.value && r.spec.value["RoleName"] == Text(role)
    && "PolicyArn" in r.spec.value && r.spec.value["PolicyArn"] == Text(policy)
  }

  /** An attachment has the ID that its role and policy give. */
  ghost predicate WellNamed(r: Resource)
  {
    r.kind == KIND_ROLE_POLICY_ATTACHMENT ==>
      exists role, policy :: IsAttachment(r, role, policy) && r.id == AttachmentID(role, policy)
  }

  ghost predicate Attached(data: Data, role: string, policy: string)
  {
    exists k <- data :: IsAttachment(data[k], role, policy)
  }

  function NewAttachment(role: string, policy: string, now: int): Resource
  {
    NewResource(KIND_ROLE_POLICY_ATTACHMENT, AttachmentID(role, policy), "aws", "iam", "", "active", now,
                map["RoleName" := Text(role), "PolicyArn" := Text(policy)])
  }

  function OnCreateVpc(data: Data, cidr: string, network: Option<string>, d: Draw): (Data, Response)
  {
    if cidr == "" then (data, Refused(400, "MissingParameter"))
    else if d.id.None? then (data, Refused(500, ""))
    else if network.None? then (data, Refused(500, "InternalError"))
    else var r := NewVpc(cidr, network.value, d.id.value, d); (data[KeyOf(r) := r], Done)
  }

  function OnCreateSubnet(data: Data, vpc: string, cidr: string, d: Draw): (Data, Response)
  {
    if vpc == "" || cidr == "" then (data, Refused(400, "MissingParameter"))
    else if StoreKey(KIND_VPC, vpc) !in data then (data, Refused(400, "InvalidVpcID.NotFound"))
    else if d.id.None? then (data, Refused(500, ""))
    else var r := NewSubnet(cidr, vpc, d.id.value, d); (data[KeyOf(r) := r], Done)
  }

  predicate GroupNameTaken(data: Data, name: string)
  {
    exists k <- data :: data[k].kind == EC2.KIND_SECURITY_GROUP && data[k].spec.Some?
                        && "GroupName" in data[k].spec.value
                        && Show(data[k].spec.value["GroupName"]) == name
  }

  function OnCreateGroup(data: Data, name: string, description: string, vpc: string, d: Draw): (Data, Response)
  {
    if name == "" || description == "" then (data, Refused(400, "MissingParameter"))
    else if GroupNameTaken(data, name) then (data, Refused(400, "InvalidGroup.Duplicate"))
    else if d.id.None? then (data, Refused(500, ""))
    else var r := NewGroup(name, description, vpc, d.id.value, d); (data[KeyOf(r) := r], Done)
  }

  function OnCreateRole(data: Data, name: string, now: int): (Data, Response)
  {
    if name == "" then (data, Refused(400, "ValidationError"))
    else if StoreKey(KIND_ROLE, name) in data then (data, Refused(409, "EntityAlreadyExists"))
    else (data[KeyOf(NewRole(name, now)) := NewRole(name, now)], Done)
  }

  /** Attaching twice succeeds without a change. */
  function OnAttachRolePolicy(data: Data, role: string, policy: string, now: int): (Data, Response)
  {
    if role == "" || policy == "" then (data, Refused(400, "ValidationError"))
    else if StoreKey(KIND_ROLE, role) !in data then (data, Refused(404, "NoSuchEntity"))
    else if StoreKey(KIND_ROLE_POLICY_ATTACHMENT, AttachmentID(role, policy)) in data then (data, Done)
    else var r := NewAttachment(role, policy, now); (data[KeyOf(r) := r], Done)
  }

  /** Deleting what others name: a missing ID, an unknown resource, a dependency, or the deletion. */
  function OnDeleteParent(data: Data, link: Link, id: string): (Data, Response)
  {
    var iam := link.RoleOfAttachment?;
    if id == "" then (data, Refused(400, if iam then "ValidationError" else "MissingParameter"))
    else if StoreKey(Parent(link), id) !in data then
      match link
      case GroupOfInstance => (data, Refused(400, "InvalidGroup.NotFound"))
      case VpcOfSubnet => (data, Refused(400, "InvalidVpcID.NotFound"))
      case RoleOfAttachment => (data, Refused(404, "NoSuchEntity"))
    else if Referenced(data, link, id) then
      (data, if iam then Refused(409, "DeleteConflict") else Refused(400, "DependencyViolation"))
    else (data - {StoreKey(Parent(link), id)}, Done)
  }

  function OnDeleteSubnet(data: Data, id: string): (Data, Response)
  {
    if id == "" then (data, Refused(400, "MissingParameter"))
    else if StoreKey(KIND_SUBNET, id) !in data then (data, Refused(400, "InvalidSubnetID.NotFound"))
    else (data - {StoreKey(KIND_SUBNET, id)}, Done)
  }

  function OnDetachRolePolicy(data: Data, role: string, policy: string): (Data, Response)
  {
    var key := StoreKey(KIND_ROLE_POLICY_ATTACHMENT, AttachmentID(role, policy));
    if role == "" || policy == "" then (data, Refused(400, "ValidationError"))
    else if key !in data then (data, Refused(404, "NoSuchEntity"))
    else (data - {key}, Done)
  }

  /** The handlers of the services, over one store. */
  class Handlers {
    const store: Store

    ghost predicate Valid()
      reads this, store
    {
      store.Valid()
    }

    constructor (store: Store)
      ensures this.store == store
    {
      this.store := store;
    }

    method DeleteSecurityGroup(id: string) returns (response: Response)
      requires Valid()
      modifies store
      ensures Valid() && (store.data, response) == OnDeleteParent(old(store.data), GroupOfInstance, id)
    {
      if id == "" {
        return Refused(400, "MissingParameter");
      }
      var found := store.Get(EC2.KIND_SECURITY_GROUP, id);
      if found.None? {
        return Refused(400, "InvalidGroup.NotFound");
      }
      var instances := store.List(EC2.KIND_INSTANCE, map[]);
      for i := 0 to |instances|
        invariant forall j :: 0 <= j < i ==> !Names(GroupOfInstance, instances[j], id)
      {
        if Names(GroupOfInstance, instances[i], id) {
          ListedNames(store.data, GroupOfInstance, map[], instances, id);
          return Refused(400, "DependencyViolation");
        }
      }
      ListedNames(store.data, GroupOfInstance, map[], instances, id);
      store.Delete(EC2.KIND_SECURITY_GROUP, id);
      return Done;
    }

    method DeleteRole(id: string) returns (response: Response)
      requires Valid()
      modifies store
      ensures Valid() && (store.data, response) == OnDeleteParent(old(store.data), RoleOfAttachment, id)
    {
      if id == "" {
        return Refused(400, "ValidationError");
      }
      var found := store.Get(KIND_ROLE, id);
      if found.None? {
        return Refused(404, "NoSuchEntity");
      }
      var attachments := store.List(KIND_ROLE_POLICY_ATTACHMENT, map[]);
      for i := 0 to |attachments|
        invariant forall j :: 0 <= j < i ==> !Names(RoleOfAttachment, attachments[j], id)
      {
        if Names(RoleOfAttachment, attachments[i], id) {
          ListedNames(store.data, RoleOfAttachment, map[], attachments, id);
          return Refused(409, "DeleteConflict");
        }
      }
      ListedNames(store.data, RoleOfAttachment, map[], attachments, id);
      store.Delete(KIND_ROLE, id);
      return Done;
    }

    /** The subnets of the VPC are found by a filter on their Spec. */
    method DeleteVpc(id: string) returns (response: Response)
      requires Valid()
      modifies store
      ensures Valid() && (store.data, response) == OnDeleteParent(old(store.data), VpcOfSubnet, id)
    {
      if id == "" {
        return Refused(400, "MissingParameter");
      }
      var found := store.Get(KIND_VPC, id);
      if found.None? {
        return Refused(400, "InvalidVpcID.NotFound");
      }
      var subnets := store.List(KIND_SUBNET, map["spec:VpcId" := id]);
      SubnetsOfVpc(store.data, subnets, id);
      if |subnets| > 0 {
        return Refused(400, "DependencyViolation");
      }
      store.Delete(KIND_VPC, id);
      return Done;
    }

    method CreateVpc(cidr: string, network: Option<string>, d: Draw) returns (response: Response)
      requires Valid()
      modifies store
      ensures Valid() && (store.data, response) == OnCreateVpc(old(store.data), cidr, network, d)
    {
      if cidr == "" {
        return Refused(400, "MissingParameter");
      }
      if d.id.None? {
        return Refused(500, "");
      }
      if network.None? {
        return Refused(500, "InternalError");
      }
      store.Put(NewVpc(cidr, network.value, d.id.value, d));
      return Done;
    }

    method CreateSubnet(vpc: string, cidr: string, d: Draw) returns (response: Response)
      requires Valid()
      modifies store
      ensures Valid() && (store.data, response) == OnCreateSubnet(old(store.data), vpc, cidr, d)
    {
      if vpc == "" || cidr == "" {
        return Refused(400, "MissingParameter");
      }
      var found := store.Get(KIND_VPC, vpc);
      if found.None? {
        return Refused(400, "InvalidVpcID.NotFound");
      }
      if d.id.None? {
        return Refused(500, "");
      }
      store.Put(NewSubnet(cidr, vpc, d.id.value, d));
      return Done;
    }

    method CreateSecurityGroup(name: string, description: string, vpc: string, d: Draw) returns (response: Response)
      requires Valid()
      modifies store
      ensures Valid() && (store.data, response) == OnCreateGroup(old(store.data), name, description, vpc, d)
    {
      if name == "" || description == "" {
        return Refused(400, "MissingParameter");
      }
      var existing := store.List(EC2.KIND_SECURITY_GROUP, map["spec:GroupName" := name]);
      GroupsOfName(store.data, existing, name);
      if |existing| > 0 {
        return Refused(400, "InvalidGroup.Duplicate");
      }
      if d.id.None? {
        return Refused(500, "");
      }
      store.Put(NewGroup(name, description, vpc, d.id.value, d));
      return Done;
    }

    method CreateRole(name: string, now: int) returns (response: Response)
      requires Valid()
      modifies store
      ensures Valid() && (store.data, response) == OnCreateRole(old(store.data), name, now)
    {
      if name == "" {
        return Refused(400, "ValidationError");
      }
      var found := store.Get(KIND_ROLE, name);
      if found.Some? {
        return Refused(409, "EntityAlreadyExists");
      }
      store.Put(NewRole(name, now));
      return Done;
    }

    method AttachRolePolicy(role: string, policy: string, now: int) returns (response: Response)
      requires Valid()
      modifies store
      ensures Valid() && (store.data, response) == OnAttachRolePolicy(old(store.data), role, policy, now)
    {
      if role == "" || policy == "" {
        return Refused(400, "ValidationError");
      }
      var found := store.Get(KIND_ROLE, role);
      if found.None? {
        return Refused(404, "NoSuchEntity");
      }
      var attached := store.Get(KIND_ROLE_POLICY_ATTACHMENT, AttachmentID(role, policy));
      if attached.None? {
        store.Put(NewAttachment(role, policy, now));
      }
      return Done;
    }

    method DetachRolePolicy(role: string, policy: string) returns (response: Response)
      requires Valid()
      modifies store
      ensures Valid() && (store.data, response) == OnDetachRolePolicy(old(store.data), role, policy)
    {
      if role == "" || policy == "" {
        return Refused(400, "ValidationError");
      }
      var attached := store.Get(KIND_ROLE_POLICY_ATTACHMENT, AttachmentID(role, policy));
      if attached.None? {
        return Refused(404, "NoSuchEntity");
      }
      store.Delete(KIND_ROLE_POLICY_ATTACHMENT, AttachmentID(role, policy));
      return Done;
    }

    method DeleteSubnet(id: string) returns (response: Response)
      requires Valid()
      modifies store
      ensures Valid() && (store.data, response) == OnDeleteSubnet(old(store.data), id)
    {
      if id == "" {
        return Refused(400, "MissingParameter");
      }
      var found := store.Get(KIND_SUBNET, id);
      if found.None? {
        return Refused(400, "InvalidSubnetID.NotFound");
      }
      store.Delete(KIND_SUBNET, id);
      return Done;
    }
  }

  lemma ListedNames(data: Data, link: Link, filter: Filter, found: seq<Resource>, id: string)
    requires WellKeyed(data) && filter == map[] && IsListing(data, Child(link), filter, found)
    ensures Referenced(data, link, id) <==> exists i :: 0 <= i < |found| && Names(link, found[i], id)
  {
    if k :| k in data && Names(link, data[k], id) {
      assert data[k] in found;
    }
    if i :| 0 <= i < |found| && Names(link, found[i], id) {
      assert found[i] in found;
    }
  }

  /** A filter on a field of the Spec selects by the printed value of the field. */
  lemma SpecCondition(r: Resource, field: string, value: string)
    ensures MatchesCondition(r, "spec:" + field, value)
       <==> r.spec.Some? && field in r.spec.value && Show(r.spec.value[field]) == value
  {
    hide Show;
    var key := "spec:" + field;
    assert key[0] == 's' && key[1] == 'p' && key[5..] == field && HasPrefix(key, "spec:");
  }

  lemma FilteredBySpec(data: Data, kind: string, field: string, value: string, found: seq<Resource>)
    requires WellKeyed(data) && kind != "" && IsListing(data, kind, map["spec:" + field := value], found)
    ensures |found| > 0 <==>
              exists k <- data :: data[k].kind == kind && data[k].spec.Some? && field in data[k].spec.value
                                  && Show(data[k].spec.value[field]) == value
  {
    hide KeyOf, Show, MatchesCondition;
    forall r: Resource
      ensures Selected(r, kind, map["spec:" + field := value])
         <==> r.kind == kind && r.spec.Some? && field in r.spec.value && Show(r.spec.value[field]) == value
    {
      SpecCondition(r, field, value);
      assert "spec:" + field in map["spec:" + field := value];
    }
    if k :| k in data && data[k].kind == kind && data[k].spec.Some? && field in data[k].spec.value
                      && Show(data[k].spec.value[field]) == value {
      assert data[k] in found;
    }
    if |found| > 0 {
      assert found[0] in found;
    }
  }

  lemma SubnetsOfVpc(data: Data, found: seq<Resource>, id: string)
    requires WellKeyed(data) && IsListing(data, KIND_SUBNET, map["spec:VpcId" := id], found)
    ensures Referenced(data, VpcOfSubnet, id) <==> |found| > 0
  {
    hide WellKeyed, IsListing, Show;
    assert "spec:" + "VpcId" == "spec:VpcId" && |KIND_SUBNET| > 0;
    FilteredBySpec(data, KIND_SUBNET, "VpcId", id, found);
  }

  lemma GroupsOfName(data: Data, found: seq<Resource>, name: string)
    requires WellKeyed(data) && IsListing(data, EC2.KIND_SECURITY_GROUP, map["spec:GroupName" := name], found)
    ensures GroupNameTaken(data, name) <==> |found| > 0
  {
    hide WellKeyed, IsListing, Show;
    assert "spec:" + "GroupName" == "spec:GroupName" && |EC2.KIND_SECURITY_GROUP| > 0;
    FilteredBySpec(data, EC2.KIND_SECURITY_GROUP, "GroupName", name, found);
  }
}
