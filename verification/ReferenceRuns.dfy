// Runs of the EC2, SG, VPC and IAM handlers: no handler leaves a reference to a resource that is gone.
module ReferenceRuns {
  import opened Wrappers
  import opened StoreKeys
  import opened MemoryStore
  import opened References
  import EC2 = RunInstances
  import opened InstanceStates

  datatype Call =
    | CreateVpc(cidr: string, network: Option<string>, draw: Draw)
    | CreateSubnet(vpc: string, cidr: string, draw: Draw)
    | CreateGroup(name: string, description: string, vpc: string, draw: Draw)
    | CreateRole(role: string, now: int)
    | AttachRolePolicy(role: string, policy: string, now: int)
    | DetachRolePolicy(role: string, policy: string)
    | DeleteParent(link: Link, id: string)
    | DeleteSubnet(id: string)
    | RunInstances(request: EC2.Request, attempts: seq<EC2.Attempt>)
    | ChangeInstances(action: Action, targets: seq<Target>)

  function Handle(data: Data, call: Call): Data
  {
    match call
    case CreateVpc(cidr, network, draw) => OnCreateVpc(data, cidr, network, draw).0
    case CreateSubnet(vpc, cidr, draw) => OnCreateSubnet(data, vpc, cidr, draw).0
    case CreateGroup(name, description, vpc, draw) => OnCreateGroup(data, name, description, vpc, draw).0
    case CreateRole(role, now) => OnCreateRole(data, role, now).0
    case AttachRolePolicy(role, policy, now) => OnAttachRolePolicy(data, role, policy, now).0
    case DetachRolePolicy(role, policy) => OnDetachRolePolicy(data, role, policy).0
    case DeleteParent(link, id) => OnDeleteParent(data, link, id).0
    case DeleteSubnet(id) => OnDeleteSubnet(data, id).0
    case RunInstances(request, attempts) => EC2.RunInstances(EC2.World(data, {}), request, attempts).0.data
    case ChangeInstances(action, targets) => OnChangeInstances(World(data, Host({}, {})), action, targets).0.data
  }

  function Run(data: Data, calls: seq<Call>): Data
    decreases |calls|
  {
    if calls == [] then data else Run(Handle(data, calls[0]), calls[1..])
  }

  ghost predicate Consistent(data: Data)
  {
    && WellKeyed(data)
    && (forall k <- data :: IsServiceKind(data[k].kind) && WellNamed(data[k]))
    && AllIntact(data)
  }

  /** What a new or rewritten resource names is there. */
  ghost predicate NamesOnlyStored(data: Data, r: Resource)
  {
    forall link: Link, id | Names(link, r, id) :: StoreKey(Parent(link), id) in data
  }

  lemma PutKeepsConsistent(data: Data, r: Resource)
    requires Consistent(data) && NamesOnlyStored(data, r) && IsServiceKind(r.kind) && WellNamed(r)
    ensures Consistent(data[KeyOf(r) := r])
  {
    hide KeyOf, Names, IsServiceKind, WellNamed;
    var after := data[KeyOf(r) := r];
    forall link: Link
      ensures Intact(after, link)
    {
      PutKeepsIntact(data, r, link);
    }
  }

  lemma DeleteKeepsConsistent(data: Data, kind: string, id: string)
    requires Consistent(data) && IsServiceKind(kind)
    requires forall link: Link | kind == Parent(link) :: !Referenced(data, link, id)
    ensures Consistent(data - {StoreKey(kind, id)})
  {
    hide Names, Referenced, IsServiceKind, StoreKey, KeyOf, Parent, WellNamed;
    var after := data - {StoreKey(kind, id)};
    forall link: Link
      ensures Intact(after, link)
    {
      if kind == Parent(link) {
        DeleteKeepsIntactExactlyWhen(data, kind, id, link);
      } else {
        DeleteOtherKeepsIntact(data, kind, id, link);
      }
    }
  }

  lemma KindsDiffer()
    ensures EC2.KIND_INSTANCE != KIND_SUBNET && EC2.KIND_INSTANCE != KIND_ROLE_POLICY_ATTACHMENT
    ensures KIND_SUBNET != KIND_ROLE_POLICY_ATTACHMENT
    ensures EC2.KIND_SECURITY_GROUP != KIND_VPC && EC2.KIND_SECURITY_GROUP != KIND_ROLE && KIND_VPC != KIND_ROLE
    ensures forall a: Link, b: Link :: Child(a) != Parent(b)
  {
    assert EC2.KIND_INSTANCE[4] == 'e' && EC2.KIND_SECURITY_GROUP[4] == 'e';
    assert KIND_VPC[4] == 'v' && KIND_SUBNET[4] == 'v' && KIND_ROLE[4] == 'i' && KIND_ROLE_POLICY_ATTACHMENT[4] == 'i';
    assert EC2.KIND_INSTANCE[8] == 'i' && EC2.KIND_SECURITY_GROUP[8] == 's';
    assert KIND_VPC[8] == 'v' && KIND_SUBNET[8] == 's' && |KIND_ROLE| < |KIND_ROLE_POLICY_ATTACHMENT|;
  }

  lemma ParentsDiffer(a: Link, b: Link)
    requires Parent(a) == Parent(b)
    ensures a == b
  {
    hide ServiceKind;
    KindsDiffer();
  }

  // ---------------------------------------------------------------- what the handlers store

  lemma ParentsNameNothing(data: Data, r: Resource, link: Link)
    requires r.kind == Parent(link)
    ensures NamesOnlyStored(data, r)
  {
    KindsDiffer();
  }

  lemma SubnetNamesVpc(data: Data, cidr: string, vpc: string, id: string, d: Draw)
    requires StoreKey(KIND_VPC, vpc) in data
    ensures NamesOnlyStored(data, NewSubnet(cidr, vpc, id, d))
  {
    hide StoreKey;
    KindsDiffer();
    assert NewSubnet(cidr, vpc, id, d).spec.value["VpcId"] == Text(vpc);
  }

  lemma AttachmentNamesRole(data: Data, role: string, policy: string, now: int)
    requires StoreKey(KIND_ROLE, role) in data
    ensures NamesOnlyStored(data, NewAttachment(role, policy, now))
  {
    hide StoreKey;
    KindsDiffer();
    assert NewAttachment(role, policy, now).spec.value["RoleName"] == Text(role);
  }

  lemma InstanceNamesGroups(data: Data, r: EC2.Request, a: EC2.Attempt)
    requires EC2.AllGroupsExist(data, r.groups)
    ensures NamesOnlyStored(data, EC2.Instance(r, a))
  {
    hide StoreKey;
    KindsDiffer();
    assert EC2.Instance(r, a).spec.value["SecurityGroupIds"] == TextList(r.groups);
  }

  lemma InstanceKind(r: EC2.Request, a: EC2.Attempt)
    ensures EC2.Instance(r, a).kind == EC2.KIND_INSTANCE && IsServiceKind(EC2.Instance(r, a).kind)
    ensures WellNamed(EC2.Instance(r, a))
  {
    hide IsServiceKind;
    KindsHaveTwoColons(GroupOfInstance);
    OtherKindIsWellNamed(EC2.Instance(r, a), GroupOfInstance);
  }

  /** Only attachments are named by a pair. */
  lemma OtherKindIsWellNamed(r: Resource, link: Link)
    requires r.kind == Parent(link) || r.kind == EC2.KIND_INSTANCE || r.kind == KIND_SUBNET
    ensures WellNamed(r)
  {
    KindsDiffer();
    assert KIND_ROLE_POLICY_ATTACHMENT == Child(RoleOfAttachment) != Parent(link);
  }

  lemma AttachmentIsWellNamed(role: string, policy: string, now: int)
    ensures WellNamed(NewAttachment(role, policy, now)) && IsAttachment(NewAttachment(role, policy, now), role, policy)
  {
    hide AttachmentID;
    var r := NewAttachment(role, policy, now);
    assert r.spec.value["RoleName"] == Text(role) && r.spec.value["PolicyArn"] == Text(policy);
    assert IsAttachment(r, role, policy);
  }

  lemma StateKeepsWellNamed(r: Resource, state: (string, nat), now: int)
    requires r.spec.Some? && WellNamed(r)
    ensures WellNamed(WithState(r, state, now))
  {
    hide AttachmentID;
    if r.kind == KIND_ROLE_POLICY_ATTACHMENT {
      var role, policy :| IsAttachment(r, role, policy) && r.id == AttachmentID(role, policy);
      assert "StateCode"[0] == 'S' && "StateName"[0] == 'S' && "RoleName"[0] == 'R' && "PolicyArn"[0] == 'P';
      assert IsAttachment(WithState(r, state, now), role, policy);
    }
  }

  /** A change of state leaves the references of an instance alone. */
  lemma StateNamesTheSame(r: Resource, state: (string, nat), now: int, link: Link, id: string)
    requires r.spec.Some?
    ensures Names(link, WithState(r, state, now), id) <==> Names(link, r, id)
  {
    hide Mentions;
    assert "StateCode"[5] == 'C' && "StateName"[5] == 'N' && "SecurityGroupIds"[5] == 'i' && |"VpcId"| == 5
        && "RoleName"[5] == 'a';
    assert Field(link) != "StateCode" && Field(link) != "StateName";
  }

  // ---------------------------------------------------------------- launching and changing instances

  lemma {:induction false} AddKeepsConsistent(w: EC2.World, r: EC2.Request, attempts: seq<EC2.Attempt>)
    requires Consistent(w.data) && EC2.AllGroupsExist(w.data, r.groups)
    ensures var after := EC2.Add(w, EC2.Instances(r, attempts));
            Consistent(after.data) && EC2.AllGroupsExist(after.data, r.groups)
    decreases |attempts|
  {
    hide KeyOf, StoreKey, Consistent, NamesOnlyStored, EC2.Instance, IsServiceKind, WellNamed;
    if attempts != [] {
      var front, last := attempts[..|attempts| - 1], attempts[|attempts| - 1];
      var all := EC2.Instances(r, attempts);
      assert all[..|all| - 1] == EC2.Instances(r, front);
      AddKeepsConsistent(w, r, front);
      var before := EC2.Add(w, EC2.Instances(r, front)).data;
      InstanceNamesGroups(before, r, last);
      InstanceKind(r, last);
      PutKeepsConsistent(before, EC2.Instance(r, last));
    }
  }

  lemma {:induction false} RemovedKeepsConsistent(w: EC2.World, instances: seq<Resource>, stuck: set<string>)
    requires Consistent(w.data) && forall x <- instances :: x.kind == EC2.KIND_INSTANCE
    ensures Consistent(EC2.Removed(w, instances, stuck).data)
    decreases |instances|
  {
    hide StoreKey, Consistent;
    if instances != [] {
      var front, last := instances[..|instances| - 1], instances[|instances| - 1];
      RemovedKeepsConsistent(w, front, stuck);
      KindsHaveTwoColons(GroupOfInstance);
      KindsDiffer();
      assert forall link: Link :: Parent(link) != Child(GroupOfInstance);
      assert KeyOf(last) == StoreKey(last.kind, last.id);
      DeleteKeepsConsistent(EC2.Removed(w, front, stuck).data, EC2.KIND_INSTANCE, last.id);
    }
  }

  lemma RunInstancesKeepsConsistent(w: EC2.World, r: EC2.Request, attempts: seq<EC2.Attempt>)
    requires Consistent(w.data)
    ensures Consistent(EC2.RunInstances(w, r, attempts).0.data)
  {
    hide Consistent, KeyOf, StoreKey, NamesOnlyStored, EC2.Instance, IsServiceKind, WellNamed;
    if EC2.AllGroupsExist(w.data, r.groups) {
      var n := EC2.Successes(attempts);
      AddKeepsConsistent(w, r, attempts[..n]);
      var added := EC2.Add(w, EC2.Instances(r, attempts[..n])).data;
      if n < |attempts| {
        InstanceNamesGroups(added, r, attempts[n]);
        InstanceKind(r, attempts[n]);
        PutKeepsConsistent(added, EC2.Instance(r, attempts[n]));
      }
      assert Consistent(EC2.AfterLaunch(w, r, attempts).data);
      InstancesAreInstances(r, attempts[..n]);
      RemovedKeepsConsistent(EC2.AfterLaunch(w, r, attempts), EC2.Instances(r, attempts[..n]), EC2.Stuck(attempts));
    }
  }

  lemma InstancesAreInstances(r: EC2.Request, attempts: seq<EC2.Attempt>)
    ensures forall x <- EC2.Instances(r, attempts) :: x.kind == EC2.KIND_INSTANCE
  {
  }

  lemma ChangeKeepsConsistent(data: Data, action: Action, t: Target)
    requires Consistent(data)
    ensures Consistent(RecordAfter(data, action, t).0)
  {
    hide Names, Intact, WellNamed;
    var key := InstanceKey(t.id);
    if key in data && data[key].spec.Some? {
      var r := data[key];
      var changed := WithState(r, TargetState(action), t.now);
      assert KeyOf(changed) == KeyOf(r) == key;
      StoredNamesOnlyStored(data, key);
      forall link: Link, id
        ensures Names(link, changed, id) ==> Names(link, r, id)
      {
        StateNamesTheSame(r, TargetState(action), t.now, link, id);
      }
      StateKeepsWellNamed(r, TargetState(action), t.now);
      PutKeepsConsistent(data, changed);
    }
  }

  lemma StoredNamesOnlyStored(data: Data, key: string)
    requires AllIntact(data) && key in data
    ensures NamesOnlyStored(data, data[key])
  {
    hide Names, StoreKey, Parent;
    forall link: Link, id | Names(link, data[key], id)
      ensures StoreKey(Parent(link), id) in data
    {
      assert Intact(data, link);
    }
  }

  lemma {:induction false} ChangesKeepConsistent(w: World, action: Action, targets: seq<Target>)
    requires Consistent(w.data)
    ensures Consistent(ChangeEach(w, action, targets).0.data)
    ensures Consistent(OnChangeInstances(w, action, targets).0.data)
    decreases |targets|
  {
    hide Consistent, RecordAfter, HostAfter;
    if targets != [] {
      ChangeKeepsConsistent(w.data, action, targets[0]);
      ChangesKeepConsistent(OnChangeInstance(w, action, targets[0]).0, action, targets[1..]);
    }
  }

  // ---------------------------------------------------------------- runs

  lemma DeleteParentKeepsConsistent(data: Data, link: Link, id: string)
    requires Consistent(data)
    ensures Consistent(OnDeleteParent(data, link, id).0)
  {
    hide Consistent, Referenced, StoreKey, IsServiceKind, Parent;
    KindsHaveTwoColons(link);
    forall other: Link | Parent(other) == Parent(link)
      ensures other == link
    {
      ParentsDiffer(other, link);
    }
    if !Referenced(data, link, id) {
      DeleteKeepsConsistent(data, Parent(link), id);
    }
  }

  lemma DeleteChildKeepsConsistent(data: Data, link: Link, id: string)
    requires Consistent(data)
    ensures Consistent(data - {StoreKey(Child(link), id)})
  {
    hide Consistent, Referenced, StoreKey, IsServiceKind;
    KindsDiffer();
    KindsHaveTwoColons(link);
    DeleteKeepsConsistent(data, Child(link), id);
  }

  lemma CreateKeepsConsistent(data: Data, call: Call)
    requires Consistent(data)
    requires call.CreateVpc? || call.CreateSubnet? || call.CreateGroup? || call.CreateRole? || call.AttachRolePolicy?
    ensures Consistent(Handle(data, call))
  {
    hide Consistent, NamesOnlyStored, KeyOf, StoreKey, GroupNameTaken, IsServiceKind, WellNamed;
    forall link: Link
      ensures IsServiceKind(Child(link)) && IsServiceKind(Parent(link))
    {
      KindsHaveTwoColons(link);
    }
    assert IsServiceKind(Child(VpcOfSubnet)) && IsServiceKind(Child(RoleOfAttachment));
    assert IsServiceKind(Parent(GroupOfInstance)) && IsServiceKind(Parent(VpcOfSubnet));
    assert IsServiceKind(Parent(RoleOfAttachment));
    match call
    case CreateVpc(cidr, network, draw) =>
      if network.Some? && draw.id.Some? {
        var r := NewVpc(cidr, network.value, draw.id.value, draw);
        ParentsNameNothing(data, r, VpcOfSubnet);
        OtherKindIsWellNamed(r, VpcOfSubnet);
        PutKeepsConsistent(data, r);
      }
    case CreateSubnet(vpc, cidr, draw) =>
      if draw.id.Some? && StoreKey(KIND_VPC, vpc) in data {
        SubnetNamesVpc(data, cidr, vpc, draw.id.value, draw);
        OtherKindIsWellNamed(NewSubnet(cidr, vpc, draw.id.value, draw), VpcOfSubnet);
        PutKeepsConsistent(data, NewSubnet(cidr, vpc, draw.id.value, draw));
      }
    case CreateGroup(name, description, vpc, draw) =>
      if draw.id.Some? {
        var r := NewGroup(name, description, vpc, draw.id.value, draw);
        ParentsNameNothing(data, r, GroupOfInstance);
        OtherKindIsWellNamed(r, GroupOfInstance);
        PutKeepsConsistent(data, r);
      }
    case CreateRole(role, now) =>
      ParentsNameNothing(data, NewRole(role, now), RoleOfAttachment);
      OtherKindIsWellNamed(NewRole(role, now), RoleOfAttachment);
      PutKeepsConsistent(data, NewRole(role, now));
    case AttachRolePolicy(role, policy, now) =>
      if StoreKey(KIND_ROLE, role) in data {
        AttachmentNamesRole(data, role, policy, now);
        AttachmentIsWellNamed(role, policy, now);
        PutKeepsConsistent(data, NewAttachment(role, policy, now));
      }
    case _ =>
  }

  /** Every handler keeps every reference, whatever it is called with. */
  lemma EveryCallKeepsConsistent(data: Data, call: Call)
    requires Consistent(data)
    ensures Consistent(Handle(data, call))
  {
    hide Consistent, StoreKey, EC2.RunInstances, OnDeleteParent, OnChangeInstances, AttachmentID;
    match call
    case DeleteParent(link, id) => DeleteParentKeepsConsistent(data, link, id);
    case DeleteSubnet(id) => DeleteChildKeepsConsistent(data, VpcOfSubnet, id);
    case DetachRolePolicy(role, policy) =>
      DeleteChildKeepsConsistent(data, RoleOfAttachment, AttachmentID(role, policy));
    case RunInstances(request, attempts) => RunInstancesKeepsConsistent(EC2.World(data, {}), request, attempts);
    case ChangeInstances(action, targets) => ChangesKeepConsistent(World(data, Host({}, {})), action, targets);
    case _ => CreateKeepsConsistent(data, call);
  }

  lemma {:induction false} RunKeepsConsistent(data: Data, calls: seq<Call>)
    requires Consistent(data)
    ensures Consistent(Run(data, calls))
    decreases |calls|
  {
    hide Consistent, Handle;
    if calls != [] {
      EveryCallKeepsConsistent(data, calls[0]);
      RunKeepsConsistent(Handle(data, calls[0]), calls[1..]);
    }
  }

  /** From an empty store: every named group, VPC and role is stored, as a resource of that kind and ID. */
  lemma ReferencesNeverDangle(calls: seq<Call>, k: string, link: Link, id: string)
    requires k in Run(map[], calls) && Names(link, Run(map[], calls)[k], id)
    ensures var data := Run(map[], calls);
            && StoreKey(Parent(link), id) in data
            && data[StoreKey(Parent(link), id)].kind == Parent(link)
            && data[StoreKey(Parent(link), id)].id == id
  {
    hide Names, Run, Parent, IsServiceKind, StoreKey;
    RunKeepsConsistent(map[], calls);
    var data := Run(map[], calls);
    assert Intact(data, link);
    var parent := data[StoreKey(Parent(link), id)];
    KindsHaveTwoColons(link);
    SamePair(parent.kind, parent.id, Parent(link), id);
  }

  lemma SamePair(k1: string, i1: string, k2: string, i2: string)
    requires IsServiceKind(k1) && IsServiceKind(k2) && StoreKey(k1, i1) == StoreKey(k2, i2)
    ensures k1 == k2 && i1 == i2
  {
    KeyDeterminesPair(k1, i1, k2, i2);
  }

  // ---------------------------------------------------------------- attachments whose IDs collide

  /** The pairs are different, and one role swallows a colon and a piece of the other's policy. */
  predicate SharesID(role: string, policy: string, role': string, policy': string)
  {
    Overlaps(role, policy, role', policy') || Overlaps(role', policy', role, policy)
  }

  lemma SameIDExactlyWhen(role: string, policy: string, role': string, policy': string)
    ensures AttachmentID(role, policy) == AttachmentID(role', policy')
       <==> (role == role' && policy == policy') || SharesID(role, policy, role', policy')
    ensures SharesID(role, policy, role', policy') ==> role != role'
  {
    assert AttachmentID(role, policy) == StoreKey(role, policy);
    assert AttachmentID(role', policy') == StoreKey(role', policy');
    KeysCollideExactlyWhen(role, policy, role', policy');
  }

  function AttachmentKey(role: string, policy: string): string
  {
    StoreKey(KIND_ROLE_POLICY_ATTACHMENT, AttachmentID(role, policy))
  }

  lemma AttachmentHasKey(data: Data, k: string, role: string, policy: string)
    requires Consistent(data) && k in data && IsAttachment(data[k], role, policy)
    ensures k == AttachmentKey(role, policy)
  {
    hide AttachmentID, StoreKey, AllIntact, IsServiceKind;
    var r := data[k];
    assert WellNamed(r);
    var role', policy' :| IsAttachment(r, role', policy') && r.id == AttachmentID(role', policy');
    assert KeyOf(r) == StoreKey(r.kind, r.id);
  }

  lemma StoredAttachment(data: Data, role: string, policy: string) returns (role': string, policy': string)
    requires Consistent(data) && AttachmentKey(role, policy) in data
    ensures IsAttachment(data[AttachmentKey(role, policy)], role', policy')
    ensures AttachmentID(role', policy') == AttachmentID(role, policy)
  {
    hide AttachmentID, StoreKey, AllIntact, IsServiceKind;
    var r := data[AttachmentKey(role, policy)];
    KindsHaveTwoColons(RoleOfAttachment);
    assert KeyOf(r) == StoreKey(r.kind, r.id);
    SamePair(r.kind, r.id, KIND_ROLE_POLICY_ATTACHMENT, AttachmentID(role, policy));
    assert WellNamed(r);
    role', policy' :| IsAttachment(r, role', policy') && r.id == AttachmentID(role', policy');
  }

  lemma AttachedExactlyWhenNamed(data: Data, role: string, policy: string)
    requires Consistent(data)
    ensures Attached(data, role, policy)
       <==> AttachmentKey(role, policy) in data && IsAttachment(data[AttachmentKey(role, policy)], role, policy)
  {
    hide Consistent, IsAttachment, AttachmentKey;
    if k :| k in data && IsAttachment(data[k], role, policy) {
      AttachmentHasKey(data, k, role, policy);
    }
  }

  /** After a successful attach the policy is attached if and only if no attachment of another pair has its ID. */
  lemma AttachingWorksExactlyWhen(data: Data, role: string, policy: string, now: int)
    requires Consistent(data) && OnAttachRolePolicy(data, role, policy, now).1 == Done
    ensures Attached(OnAttachRolePolicy(data, role, policy, now).0, role, policy)
       <==> !exists role', policy' :: SharesID(role, policy, role', policy') && Attached(data, role', policy')
  {
    hide Consistent, AttachmentID, StoreKey, NewAttachment, IsAttachment, SharesID;
    var after := OnAttachRolePolicy(data, role, policy, now).0;
    var key := AttachmentKey(role, policy);
    CreateKeepsConsistent(data, AttachRolePolicy(role, policy, now));
    AttachedExactlyWhenNamed(after, role, policy);
    forall role', policy' | SharesID(role, policy, role', policy') && Attached(data, role', policy')
      ensures key in data && IsAttachment(data[key], role', policy') && role != role'
    {
      SameIDExactlyWhen(role, policy, role', policy');
      AttachedExactlyWhenNamed(data, role', policy');
    }
    if key in data {
      var role', policy' := StoredAttachment(data, role, policy);
      SameIDExactlyWhen(role, policy, role', policy');
      OnePair(data[key]);
      assert IsAttachment(data[key], role', policy') && Attached(data, role', policy');
    } else {
      AttachmentIsWellNamed(role, policy, now);
      AttachmentKeyIs(role, policy, now);
    }
  }

  lemma OnePair(r: Resource)
    ensures forall role, policy, role', policy' | IsAttachment(r, role, policy) && IsAttachment(r, role', policy') ::
              role == role' && policy == policy'
  {
  }

  lemma AttachmentKeyIs(role: string, policy: string, now: int)
    ensures KeyOf(NewAttachment(role, policy, now)) == AttachmentKey(role, policy)
  {
  }

  /** A successful detach takes the policy away from every role whose attachment has the same ID, and from no other. */
  lemma DetachingTakesExactly(data: Data, role: string, policy: string, role': string, policy': string)
    requires Consistent(data) && OnDetachRolePolicy(data, role, policy).1 == Done && Attached(data, role', policy')
    ensures Attached(OnDetachRolePolicy(data, role, policy).0, role', policy')
       <==> !((role == role' && policy == policy') || SharesID(role, policy, role', policy'))
  {
    hide Consistent, AttachmentID, StoreKey, IsAttachment, SharesID;
    var after := OnDetachRolePolicy(data, role, policy).0;
    SameIDExactlyWhen(role, policy, role', policy');
    DeleteChildKeepsConsistent(data, RoleOfAttachment, AttachmentID(role, policy));
    AttachedExactlyWhenNamed(data, role', policy');
    AttachedExactlyWhenNamed(after, role', policy');
    if AttachmentID(role, policy) != AttachmentID(role', policy') {
      AttachmentKeysDiffer(role, policy, role', policy');
    }
  }

  lemma AttachmentKeysDiffer(role: string, policy: string, role': string, policy': string)
    requires AttachmentID(role, policy) != AttachmentID(role', policy')
    ensures AttachmentKey(role, policy) != AttachmentKey(role', policy')
  {
    hide AttachmentID;
    if AttachmentKey(role, policy) == AttachmentKey(role', policy') {
      SameSplit(KIND_ROLE_POLICY_ATTACHMENT, AttachmentID(role, policy),
                KIND_ROLE_POLICY_ATTACHMENT, AttachmentID(role', policy'));
    }
  }

  /** Two roles, the second of them with an attachment. */
  function OneAttached(role: string, role': string, policy': string, now: int): Data
  {
    Run(map[], [CreateRole(role, now), CreateRole(role', now), AttachRolePolicy(role', policy', now)])
  }

  lemma RoleKeysDiffer(role: string, role': string)
    requires role != role'
    ensures StoreKey(KIND_ROLE, role) != StoreKey(KIND_ROLE, role')
  {
    if StoreKey(KIND_ROLE, role) == StoreKey(KIND_ROLE, role') {
      SameSplit(KIND_ROLE, role, KIND_ROLE, role');
    }
  }

  lemma RunCall(data: Data, call: Call, rest: seq<Call>)
    ensures Run(data, [call] + rest) == Run(Handle(data, call), rest)
  {
    hide Handle;
    assert ([call] + rest)[0] == call && ([call] + rest)[1..] == rest;
  }

  lemma RoleIsCreated(data: Data, role: string, now: int)
    requires role != "" && StoreKey(KIND_ROLE, role) !in data
    ensures Handle(data, CreateRole(role, now)) == data[StoreKey(KIND_ROLE, role) := NewRole(role, now)]
  {
    RoleKey(role, now);
  }

  lemma PolicyIsAttached(data: Data, role: string, policy: string, now: int)
    requires role != "" && policy != "" && StoreKey(KIND_ROLE, role) in data && AttachmentKey(role, policy) !in data
    ensures Handle(data, AttachRolePolicy(role, policy, now))
         == data[AttachmentKey(role, policy) := NewAttachment(role, policy, now)]
  {
    AttachmentKeyIs(role, policy, now);
  }

  lemma OneAttachedIs(role: string, role': string, policy': string, now: int)
    requires role != role' && role != "" && role' != "" && policy' != ""
    ensures OneAttached(role, role', policy', now)
         == map[StoreKey(KIND_ROLE, role) := NewRole(role, now)][StoreKey(KIND_ROLE, role') := NewRole(role', now)]
              [AttachmentKey(role', policy') := NewAttachment(role', policy', now)]
    ensures StoreKey(KIND_ROLE, role) != AttachmentKey(role', policy')
    ensures StoreKey(KIND_ROLE, role') != AttachmentKey(role', policy')
    ensures StoreKey(KIND_ROLE, role) != StoreKey(KIND_ROLE, role')
  {
    hide StoreKey, AttachmentID, NewRole, NewAttachment, Handle, Run, IsServiceKind;
    var first, second, third := CreateRole(role, now), CreateRole(role', now), AttachRolePolicy(role', policy', now);
    RoleKeysDiffer(role, role');
    KindsHaveTwoColons(RoleOfAttachment);
    OtherKindOtherKey(KIND_ROLE, role, KIND_ROLE_POLICY_ATTACHMENT, AttachmentID(role', policy'));
    OtherKindOtherKey(KIND_ROLE, role', KIND_ROLE_POLICY_ATTACHMENT, AttachmentID(role', policy'));
    var one := map[StoreKey(KIND_ROLE, role) := NewRole(role, now)];
    var two := one[StoreKey(KIND_ROLE, role') := NewRole(role', now)];
    assert map[][StoreKey(KIND_ROLE, role) := NewRole(role, now)] == one;
    RoleIsCreated(map[], role, now);
    RoleIsCreated(one, role', now);
    PolicyIsAttached(two, role', policy', now);
    assert [first, second, third] == [first] + ([second] + ([third] + []));
    RunCall(map[], first, [second] + ([third] + []));
    RunCall(one, second, [third] + []);
    RunCall(two, third, []);
    RunNothing(Handle(two, third));
  }

  lemma RunNothing(data: Data)
    ensures Run(data, []) == data
  {
  }

  lemma RoleKey(role: string, now: int)
    ensures KeyOf(NewRole(role, now)) == StoreKey(KIND_ROLE, role)
  {
  }

  /**
   * With a colliding attachment stored, attaching says that it is done and stores nothing, so that the
   * role can be deleted, and detaching takes the other role's policy away.
   */
  lemma CollidingAttachments(role: string, policy: string, role': string, policy': string, now: int)
    requires role != "" && policy != "" && role' != "" && policy' != "" && SharesID(role, policy, role', policy')
    ensures var data := OneAttached(role, role', policy', now);
            && Attached(data, role', policy')
            && OnAttachRolePolicy(data, role, policy, now) == (data, Done) && !Attached(data, role, policy)
            && OnDeleteParent(data, RoleOfAttachment, role).1 == Done
            && OnDetachRolePolicy(data, role, policy).1 == Done
            && !Attached(OnDetachRolePolicy(data, role, policy).0, role', policy')
  {
    hide StoreKey, AttachmentID, SharesID, NewRole, NewAttachment, OneAttached, IsAttachment, Consistent;
    var data := OneAttached(role, role', policy', now);
    SameIDExactlyWhen(role, policy, role', policy');
    OneAttachedIs(role, role', policy', now);
    OneAttachedIsConsistent(role, role', policy', now);
    AttachmentIsWellNamed(role', policy', now);
    AttachedExactlyWhenNamed(data, role', policy');
    AttachingWorksExactlyWhen(data, role, policy, now);
    DetachingTakesExactly(data, role, policy, role', policy');
    NotReferenced(role, role', policy', now);
  }

  lemma OneAttachedIsConsistent(role: string, role': string, policy': string, now: int)
    ensures Consistent(OneAttached(role, role', policy', now))
  {
    hide Run;
    RunKeepsConsistent(map[], [CreateRole(role, now), CreateRole(role', now), AttachRolePolicy(role', policy', now)]);
  }

  lemma NotReferenced(role: string, role': string, policy': string, now: int)
    requires role != role' && role != "" && role' != "" && policy' != ""
    ensures !Referenced(OneAttached(role, role', policy', now), RoleOfAttachment, role)
  {
    hide StoreKey, AttachmentID, OneAttached;
    OneAttachedIs(role, role', policy', now);
    KindsDiffer();
    assert Child(RoleOfAttachment) != Parent(RoleOfAttachment);
    assert NewAttachment(role', policy', now).spec.value["RoleName"] == Text(role');
  }

  lemma CollidingPair()
    ensures SharesID("a", "b:c", "a:b", "c")
  {
    assert "a:b"[..2] == "a" + ":" && "b:c" == "a:b"[2..] + ":" + "c";
  }


  // ---------------------------------------------------------------- what a deletion does, and what protects from it

  /** A deletion takes exactly the resource, and is done exactly for a stored one that nothing names. */
  lemma DeletionTakesExactly(data: Data, link: Link, id: string)
    ensures var (after, response) := OnDeleteParent(data, link, id);
            var key := StoreKey(Parent(link), id);
            && (response == Done <==> id != "" && key in data && !Referenced(data, link, id))
            && (response == Done ==> after.Keys == data.Keys - {key} && forall k <- after :: after[k] == data[k])
            && (response != Done ==> after == data)
  {
    hide Referenced, StoreKey, Parent;
  }

  /** The refusal for a resource that others name. */
  function InUse(link: Link): References.Response
  {
    if link.RoleOfAttachment? then References.Response.Refused(409, "DeleteConflict")
    else References.Response.Refused(400, "DependencyViolation")
  }

  /** Once something is stored that names the resource, its deletion is refused. */
  lemma NamedIsProtected(data: Data, k: string, link: Link, id: string)
    requires k in data && Names(link, data[k], id) && id != "" && StoreKey(Parent(link), id) in data
    ensures OnDeleteParent(data, link, id) == (data, InUse(link))
  {
    hide Names, StoreKey, Parent;
  }

  lemma ChildrenNameTheirParents(cidr: string, vpc: string, id: string, d: Draw, role: string, policy: string, now: int,
                                 r: EC2.Request, a: EC2.Attempt, group: string)
    ensures Names(VpcOfSubnet, NewSubnet(cidr, vpc, id, d), vpc)
    ensures Names(RoleOfAttachment, NewAttachment(role, policy, now), role)
    ensures group in r.groups ==> Names(GroupOfInstance, EC2.Instance(r, a), group)
  {
    assert NewSubnet(cidr, vpc, id, d).spec.value["VpcId"] == Text(vpc);
    assert NewAttachment(role, policy, now).spec.value["RoleName"] == Text(role);
    assert EC2.Instance(r, a).spec.value["SecurityGroupIds"] == TextList(r.groups);
  }

  /** A new subnet protects its VPC, until it is deleted. */
  lemma SubnetProtectsVpc(data: Data, vpc: string, cidr: string, d: Draw)
    requires Consistent(data) && OnCreateSubnet(data, vpc, cidr, d).1 == Done && d.id.Some?
    ensures var after := OnCreateSubnet(data, vpc, cidr, d).0;
            && OnDeleteParent(after, VpcOfSubnet, vpc) == (after, InUse(VpcOfSubnet))
            && OnDeleteSubnet(after, "subnet-" + d.id.value).1 == Done
            && (!Referenced(data - {StoreKey(KIND_SUBNET, "subnet-" + d.id.value)}, VpcOfSubnet, vpc) ==>
                  OnDeleteParent(OnDeleteSubnet(after, "subnet-" + d.id.value).0, VpcOfSubnet, vpc).1 == Done)
  {
    hide StoreKey, Names, Consistent, NewSubnet;
    var r := NewSubnet(cidr, vpc, d.id.value, d);
    var after := OnCreateSubnet(data, vpc, cidr, d).0;
    SubnetHasKey(cidr, vpc, d.id.value, d);
    ChildrenNameTheirParents(cidr, vpc, d.id.value, d, "", "", 0, EC2.Asking(1, None), EC2.Try(0, EC2.Stored, true),
                             "");
    VpcAndSubnetKeys(vpc, "subnet-" + d.id.value);
    NamedIsProtected(after, KeyOf(r), VpcOfSubnet, vpc);
    var key := StoreKey(KIND_SUBNET, "subnet-" + d.id.value);
    assert after - {key} == data - {key};
  }

  lemma SubnetHasKey(cidr: string, vpc: string, id: string, d: Draw)
    ensures KeyOf(NewSubnet(cidr, vpc, id, d)) == StoreKey(KIND_SUBNET, "subnet-" + id) && "subnet-" + id != ""
  {
  }

  lemma VpcAndSubnetKeys(vpc: string, subnet: string)
    ensures StoreKey(KIND_VPC, vpc) != StoreKey(KIND_SUBNET, subnet)
  {
    KindsHaveTwoColons(VpcOfSubnet);
    OtherKindOtherKey(KIND_VPC, vpc, KIND_SUBNET, subnet);
  }

  /** A launched instance protects each of its security groups. */
  lemma InstanceProtectsGroups(data: Data, r: EC2.Request, attempts: seq<EC2.Attempt>, group: string)
    requires EC2.Fresh(EC2.World(data, {}), attempts) && group in r.groups && group != ""
    requires var response := EC2.RunInstances(EC2.World(data, {}), r, attempts).1;
             response.Launched? && |response.instances| > 0
    ensures var after := Handle(data, RunInstances(r, attempts));
            OnDeleteParent(after, GroupOfInstance, group) == (after, InUse(GroupOfInstance))
  {
    hide StoreKey, Names, EC2.Fresh, EC2.Instance, EC2.AfterLaunch, KeyOf, EC2.FailedStuck, EC2.FailedAfterStoring;
    var w := EC2.World(data, {});
    var first := EC2.RunInstances(w, r, attempts).1.instances[0];
    EC2.LaunchedWorld(w, r, attempts);
    assert first == EC2.Instance(r, attempts[0]);
    ChildrenNameTheirParents("", "", "", Draw(None, "", 0), "", "", 0, r, attempts[0], group);
    assert first in EC2.RunInstances(w, r, attempts).1.instances;
    NamedIsProtected(Handle(data, RunInstances(r, attempts)), KeyOf(first), GroupOfInstance, group);
  }

  /** An attached policy protects its role. */
  lemma AttachmentProtectsRole(data: Data, role: string, policy: string, now: int)
    requires role != "" && StoreKey(KIND_ROLE, role) in data && Attached(data, role, policy)
    ensures OnDeleteParent(data, RoleOfAttachment, role) == (data, InUse(RoleOfAttachment))
  {
    hide StoreKey;
    var k :| k in data && IsAttachment(data[k], role, policy);
    NamedIsProtected(data, k, RoleOfAttachment, role);
  }

  /** What is created is stored under the ID of the answer, and a name that is taken cannot be taken again. */
  lemma CreatedIsStored(data: Data, name: string, description: string, vpc: string, cidr: string,
                        network: Option<string>,
                        d: Draw, now: int)
    ensures var (after, response) := OnCreateVpc(data, cidr, network, d);
            response == Done ==> d.id.Some? && network.Some?
                                 && after.Keys == data.Keys + {StoreKey(KIND_VPC, "vpc-" + d.id.value)}
    ensures var (after, response) := OnCreateGroup(data, name, description, vpc, d);
            && (response == Done ==>
                  && d.id.Some?
                  && after.Keys == data.Keys + {StoreKey(EC2.KIND_SECURITY_GROUP, "sg-" + d.id.value)}
                  && OnCreateGroup(after, name, description, vpc, d).1 == InvalidName("InvalidGroup.Duplicate"))
    ensures var (after, response) := OnCreateRole(data, name, now);
            && (response == Done ==> after.Keys == data.Keys + {StoreKey(KIND_ROLE, name)}
                                     && OnCreateRole(after, name, now) == (after, RoleExists()))
  {
    hide StoreKey;
    if d.id.Some? {
      CreatedKeys(name, description, vpc, cidr, d, now);
      var r := NewGroup(name, description, vpc, d.id.value, d);
      assert data[KeyOf(r) := r][KeyOf(r)] == r;
      assert r.spec.value["GroupName"] == Text(name);
    }
    RoleKey(name, now);
  }

  function InvalidName(code: string): References.Response
  {
    References.Response.Refused(400, code)
  }

  function RoleExists(): References.Response
  {
    References.Response.Refused(409, "EntityAlreadyExists")
  }

  lemma CreatedKeys(name: string, description: string, vpc: string, cidr: string, d: Draw, now: int)
    requires d.id.Some?
    ensures forall network :: KeyOf(NewVpc(cidr, network, d.id.value, d)) == StoreKey(KIND_VPC, "vpc-" + d.id.value)
    ensures KeyOf(NewGroup(name, description, vpc, d.id.value, d))
         == StoreKey(EC2.KIND_SECURITY_GROUP, "sg-" + d.id.value)
  {
  }
}
