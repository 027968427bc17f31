/** The generated RBAC against a closed-form permission table. */
module TerminalGuarantees {
  import opened TerminalPolicy

  // ---------------------------------------------------------------- the table

  datatype Category =
    | Workload | Derived | Event | Log | Exec | PortForward | Secret | NamespacedRbac
    | Volume | Node | NamespaceObject | Crd | ClusterRole | ClusterRoleBinding | Unknown

  function CategoryOf(group: Group, resource: Resource): Category {
    match group
    case Core =>
      (match resource
       case Pods | Services | Endpoints | ConfigMaps | PersistentVolumeClaims | ResourceQuotas | LimitRanges => Workload
       case Events => Event
       case PodLogs => Log
       case PodsExec => Exec
       case PodsPortForward => PortForward
       case Secrets => Secret
       case ServiceAccounts => NamespacedRbac
       case PersistentVolumes => Volume
       case Nodes => Node
       case Namespaces => NamespaceObject
       case _ => Unknown)
    case Apps =>
      (match resource
       case Deployments | StatefulSets | DaemonSets => Workload
       case ReplicaSets | ControllerRevisions => Derived
       case _ => Unknown)
    case Batch => if resource in {Jobs, CronJobs} then Workload else Unknown
    case Networking => if resource in {Ingresses, NetworkPolicies} then Workload else Unknown
    case Gateway =>
      if resource in {Gateways, HttpRoutes, GrpcRoutes, TlsRoutes, TcpRoutes, UdpRoutes} then Workload else Unknown
    case Autoscaling => if resource == HorizontalPodAutoscalers then Workload else Unknown
    case VerticalAutoscaling => if resource == VerticalPodAutoscalers then Workload else Unknown
    case Keda => if resource == ScaledObjects then Workload else Unknown
    case Policy => if resource == PodDisruptionBudgets then Workload else Unknown
    case Storage => if resource == StorageClasses then Volume else Unknown
    case Scheduling => if resource == PriorityClasses then Volume else Unknown
    case ApiExtensions => if resource == CustomResourceDefinitions then Crd else Unknown
    case Rbac =>
      (match resource
       case Roles | RoleBindings => NamespacedRbac
       case ClusterRoles => ClusterRole
       case ClusterRoleBindings => ClusterRoleBinding
       case _ => Unknown)
    case OtherGroup(_) => Unknown
  }

  function Kind(q: Request): Category {
    CategoryOf(q.group, q.resource)
  }

  predicate IsRead(v: Verb) {
    v == Get || v == List || v == Watch
  }

  /** A write to a workload kind: the ordinary permission in an ordinary Namespace, the class
      permission, which stands for all of them, in a protected one. */
  predicate MayWrite(held: Permissions, p: Protector, v: Verb) {
    if p.Protected? then p.permission in held
    else match v
      case Create => ResourceCreate in held
      case Update | Patch => ResourceUpdate in held
      case Delete => ResourceDelete in held
      case _ => false
  }

  /** What a role bound in a Namespace of class `p` adds there. */
  predicate NamespaceTable(held: Permissions, p: Protector, q: Request) {
    match Kind(q)
    case Workload => if IsRead(q.verb) then ClusterRead in held else MayWrite(held, p, q.verb)
    case Derived => IsRead(q.verb) && ClusterRead in held
    case Event => IsRead(q.verb) && EventRead in held
    case Log => q.verb == Get && PodLogsRead in held
    case Exec => (q.verb == Get || q.verb == Create) && Manages(held, p) && PodExec in held
    case PortForward => (q.verb == Get || q.verb == Create) && Manages(held, p) && PodPortForward in held
    case Secret => Manages(held, p) && (if IsRead(q.verb) then SecretRead in held else SecretManage in held)
    case NamespacedRbac =>
      if IsRead(q.verb) then RbacRead in held else q.verb != Patch && Manages(held, p) && RbacManage in held
    case _ => false
  }

  /** A ClusterRole that is not ZKE's own. */
  predicate ForeignRole(s: Session, name: string) {
    exists o <- s.clusterRoles :: o.name == name != "zke-agent" && o.managedBy != "zke-server"
  }

  /** A ClusterRoleBinding that is not ZKE's own and does not bind the Agent's role. */
  predicate ForeignBinding(s: Session, name: string) {
    exists o <- s.clusterRoleBindings ::
      o.name == name != "zke-agent" && o.managedBy != "zke-server" && o.roleRef != "zke-agent"
  }

  /** The permission that changing a Namespace's own object takes, by its name. */
  predicate MayChange(s: Session, name: string) {
    if name == s.agentNamespace then AgentNamespaceManage in s.held
    else if name == "default" || "kube-" <= name then SystemNamespaceManage in s.held
    else NamespaceManage in s.held
  }

  predicate HoldsAllThree(held: Permissions) {
    {NamespaceManage, SystemNamespaceManage, AgentNamespaceManage} <= held
  }

  /** What the cluster binding grants, in every Namespace and outside of them. */
  predicate ClusterTable(s: Session, q: Request) {
    match Kind(q)
    case Workload | Derived => IsRead(q.verb) && ClusterRead in s.held
    case Event => IsRead(q.verb) && EventRead in s.held
    case Log => q.verb == Get && PodLogsRead in s.held
    case Secret =>
      IsRead(q.verb) && SecretRead in s.held && SystemNamespaceManage in s.held && AgentNamespaceManage in s.held
    case NamespacedRbac => IsRead(q.verb) && RbacRead in s.held
    case Volume => if IsRead(q.verb) then ClusterRead in s.held else MayWrite(s.held, Ordinary, q.verb)
    case Node =>
      if IsRead(q.verb) then ClusterRead in s.held else (q.verb == Update || q.verb == Patch) && NodeManage in s.held
    case NamespaceObject =>
      if IsRead(q.verb) then ClusterRead in s.held
      else if q.verb == Create then HoldsAllThree(s.held)
      else IsListed(s, q.name) && MayChange(s, q.name)
    case Crd => IsRead(q.verb) && ClusterRead in s.held
    case ClusterRole =>
      if IsRead(q.verb) then RbacRead in s.held
      else RbacManage in s.held && q.verb != Patch &&
           (q.verb == Create || ForeignRole(s, q.name))
    case ClusterRoleBinding =>
      if IsRead(q.verb) then RbacRead in s.held
      else RbacManage in s.held && q.verb != Patch &&
           (q.verb == Create || ForeignBinding(s, q.name))
    case _ => false
  }

  // ---------------------------------------------------------------- rule lists, piece by piece

  lemma ListGrants(a: seq<Rule>, q: Request)
    ensures Grants(a, q) <==> exists i :: 0 <= i < |a| && Matches(a[i], q)
  {
    if i :| 0 <= i < |a| && Matches(a[i], q) {
      assert a[i] in a;
    }
  }

  lemma OtherWorkloadsGrant(verbs: seq<Verb>, q: Request)
    ensures Grants(OtherWorkloadRules(verbs), q) <==>
      q.verb in verbs && Kind(q).Workload? && q.group != Core && q.group != Apps
  {
    var a := OtherWorkloadRules(verbs);
    ListGrants(a, q);
    var found := Matches(a[0], q) || Matches(a[1], q) || Matches(a[2], q) || Matches(a[3], q) || Matches(a[4], q)
              || Matches(a[5], q) || Matches(a[6], q);
    assert found <==> Grants(a, q);
  }

  lemma WorkloadsGrant(verbs: seq<Verb>, q: Request)
    ensures Grants(WorkloadRules(verbs), q) <==> q.verb in verbs && Kind(q).Workload?
  {
    var rules := WorkloadRules(verbs);
    var first := rules[0];
    var second := rules[1];
    assert rules == When(true, [first, second]) + OtherWorkloadRules(verbs);
    GrantsEither(When(true, [first, second]), OtherWorkloadRules(verbs), q);
    GrantsWhen2(true, first, second, q);
    OtherWorkloadsGrant(verbs, q);
  }

  lemma VerbsAre(held: Permissions, p: Protector, v: Verb)
    ensures v in NamespaceVerbs(held, p) <==> if IsRead(v) then ClusterRead in held else MayWrite(held, p, v)
  {
  }

  lemma WorkloadPartGrants(held: Permissions, p: Protector, q: Request)
    ensures Grants(WorkloadPart(held, p), q) <==> (
      (Kind(q).Workload? || Kind(q).Derived?)
      && NamespaceTable(held, p, q))
  {
    var verbs := NamespaceVerbs(held, p);
    var derived := AnyName(Apps, [ReplicaSets, ControllerRevisions], READ);
    VerbsAre(held, p, q.verb);
    WorkloadsGrant(verbs, q);
    GrantsWhen(ClusterRead in held, derived, q);
    GrantsEither(WorkloadRules(verbs), When(ClusterRead in held, [derived]), q);
    if ClusterRead in held {
      assert Get in verbs;
    }
  }

  lemma ReadOnlyPartGrants(held: Permissions, q: Request)
    ensures Grants(ReadOnlyPart(held), q) <==> (
      (Kind(q).Event? && IsRead(q.verb) && EventRead in held)
      || (Kind(q).Log? && q.verb == Get && PodLogsRead in held))
  {
    var events, logs := AnyName(Core, [Events], READ), AnyName(Core, [PodLogs], [Get]);
    GrantsEither(When(EventRead in held, [events]), When(PodLogsRead in held, [logs]), q);
    GrantsWhen(EventRead in held, events, q);
    GrantsWhen(PodLogsRead in held, logs, q);
  }

  lemma StreamPartGrants(held: Permissions, p: Protector, q: Request)
    ensures Grants(StreamPart(held, p), q) <==> (
      (Kind(q).Exec? || Kind(q).PortForward?)
      && NamespaceTable(held, p, q))
  {
    var exec, forward := AnyName(Core, [PodsExec], [Get, Create]), AnyName(Core, [PodsPortForward], [Get, Create]);
    var mayExec, mayForward := Manages(held, p) && PodExec in held, Manages(held, p) && PodPortForward in held;
    GrantsEither(When(mayExec, [exec]), When(mayForward, [forward]), q);
    GrantsWhen(mayExec, exec, q);
    GrantsWhen(mayForward, forward, q);
  }

  lemma SecretPartGrants(held: Permissions, p: Protector, q: Request)
    ensures Grants(SecretPart(held, p), q) <==> Kind(q).Secret? && NamespaceTable(held, p, q)
  {
    var verbs := When(Manages(held, p) && SecretRead in held, READ)
               + When(Manages(held, p) && SecretManage in held, [Create, Update, Patch, Delete]);
    GrantsWhen(verbs != [], AnyName(Core, [Secrets], verbs), q);
  }

  lemma RbacVerbsAre(held: Permissions, manages: bool, v: Verb)
    ensures v in When(RbacRead in held, READ) + When(manages && RbacManage in held, [Create, Update, Delete]) <==>
      if IsRead(v) then RbacRead in held else v != Patch && manages && RbacManage in held
  {
  }

  lemma RbacPartGrants(held: Permissions, p: Protector, q: Request)
    ensures Grants(RbacPart(held, p), q) <==> Kind(q).NamespacedRbac? && NamespaceTable(held, p, q)
  {
    var verbs := When(RbacRead in held, READ) + When(Manages(held, p) && RbacManage in held, [Create, Update, Delete]);
    RbacVerbsAre(held, Manages(held, p), q.verb);
    GrantsWhen2(verbs != [], AnyName(Core, [ServiceAccounts], verbs), AnyName(Rbac, [Roles, RoleBindings], verbs), q);
  }

  /** The role bound in a Namespace grants exactly its table. */
  lemma NamespaceRulesGrant(held: Permissions, p: Protector, q: Request)
    ensures Grants(NamespaceRules(held, p), q) <==> NamespaceTable(held, p, q)
  {
    var a, b, c, d, e := WorkloadPart(held, p), ReadOnlyPart(held), StreamPart(held, p), SecretPart(held, p),
      RbacPart(held, p);
    GrantsEither(a, b, q);
    GrantsEither(a + b, c, q);
    GrantsEither(a + b + c, d, q);
    GrantsEither(a + b + c + d, e, q);
    WorkloadPartGrants(held, p, q);
    ReadOnlyPartGrants(held, q);
    StreamPartGrants(held, p, q);
    SecretPartGrants(held, p, q);
    RbacPartGrants(held, p, q);
  }

  predicate VolumeTable(held: Permissions, q: Request) {
    Kind(q).Volume? && (if IsRead(q.verb) then ClusterRead in held else MayWrite(held, Ordinary, q.verb))
  }

  lemma VolumePartGrants(held: Permissions, q: Request)
    ensures Grants(VolumePart(held), q) <==> VolumeTable(held, q)
  {
    var verbs := NamespaceVerbs(held, Ordinary);
    VerbsAre(held, Ordinary, q.verb);
    GrantsWhen3(verbs != [], AnyName(Core, [PersistentVolumes], verbs), AnyName(Storage, [StorageClasses], verbs),
                AnyName(Scheduling, [PriorityClasses], verbs), q);
  }

  predicate NodeTable(held: Permissions, q: Request) {
    || ((Kind(q).Node? || Kind(q).NamespaceObject? || Kind(q).Crd?) && IsRead(q.verb) && ClusterRead in held)
    || (Kind(q).Node? && (q.verb == Update || q.verb == Patch) && NodeManage in held)
  }

  lemma NodePartGrants(held: Permissions, q: Request)
    ensures Grants(NodePart(held), q) <==> NodeTable(held, q)
  {
    var readable, crds := AnyName(Core, [Nodes, Namespaces], READ),
      AnyName(ApiExtensions, [CustomResourceDefinitions], READ);
    var writes := AnyName(Core, [Nodes], [Update, Patch]);
    GrantsEither(When(ClusterRead in held, [readable, crds]), When(NodeManage in held, [writes]), q);
    GrantsWhen2(ClusterRead in held, readable, crds, q);
    GrantsWhen(NodeManage in held, writes, q);
  }

  predicate ClusterRbacTable(held: Permissions, q: Request) {
    && (Kind(q).ClusterRole? || Kind(q).ClusterRoleBinding?)
    && ((IsRead(q.verb) && RbacRead in held) || (q.verb == Create && RbacManage in held))
  }

  lemma ClusterRbacPartGrants(held: Permissions, q: Request)
    ensures Grants(ClusterRbacPart(held), q) <==> ClusterRbacTable(held, q)
  {
    var verbs := When(RbacRead in held, READ) + When(RbacManage in held, [Create]);
    GrantsWhen(verbs != [], AnyName(Rbac, [ClusterRoles, ClusterRoleBindings], verbs), q);
  }

  lemma WideListsAre(q: Request)
    ensures q.group == Core && q.resource in CORE_WORKLOADS <==> q.group == Core && Kind(q).Workload?
    ensures q.group == Apps && q.resource in [Deployments, StatefulSets, DaemonSets, ReplicaSets, ControllerRevisions]
       <==> q.group == Apps && (Kind(q).Workload? || Kind(q).Derived?)
    ensures Kind(q).Derived? ==> q.group == Apps
  {
  }

  lemma WideReadPartGrants(held: Permissions, q: Request)
    ensures Grants(WideReadPart(held), q) <==> (
      (Kind(q).Workload? || Kind(q).Derived?)
      && IsRead(q.verb) && ClusterRead in held)
  {
    var core := AnyName(Core, CORE_WORKLOADS, READ);
    var apps := AnyName(Apps, [Deployments, StatefulSets, DaemonSets, ReplicaSets, ControllerRevisions], READ);
    GrantsEither(When(true, [core, apps]), OtherWorkloadRules(READ), q);
    GrantsWhen2(true, core, apps, q);
    OtherWorkloadsGrant(READ, q);
    WideListsAre(q);
  }

  lemma WideRestGrants(held: Permissions, q: Request)
    ensures Grants(WideSecretPart(held), q) <==> (
      Kind(q).Secret? && IsRead(q.verb)
      && SecretRead in held && SystemNamespaceManage in held && AgentNamespaceManage in held)
    ensures Grants(WideRbacPart(held), q) <==> Kind(q).NamespacedRbac? && IsRead(q.verb) && RbacRead in held
  {
    GrantsWhen(SecretRead in held && SystemNamespaceManage in held && AgentNamespaceManage in held,
      AnyName(Core, [Secrets], READ), q);
    GrantsWhen2(RbacRead in held, AnyName(Core, [ServiceAccounts], READ),
      AnyName(Rbac, [Roles, RoleBindings], READ), q);
  }

  lemma ForeignNamesAre(s: Session, name: string)
    ensures name in ForeignRoleNames(s) <==> ForeignRole(s, name)
    ensures name in ForeignBindingNames(s) <==> ForeignBinding(s, name)
  {
    var role, binding := (o: Listed) => !ManagedByZke(o), (o: Listed) => !ManagedByZke(o) && o.roleRef != "zke-agent";
    NamesAre(s.clusterRoles, role, (o: Listed) => o.name, name);
    NamesAre(s.clusterRoleBindings, binding, (o: Listed) => o.name, name);
  }

  lemma LifecycleNamesAre(s: Session, permission: Permission, name: string)
    ensures name in LifecycleNames(s, permission) <==>
      IsListed(s, name) && LifecyclePermission(name, s.agentNamespace) == permission
  {
    NamesAre(s.namespaces, InClass(s, permission), NameOf, name);
  }

  lemma NamedRuleGrants(resource: Resource, names: seq<string>, q: Request)
    ensures Grants(NamedRule(resource, names), q) <==> (
      q.group == Rbac && q.resource == resource && q.name in names && (q.verb == Update || q.verb == Delete))
  {
    GrantsWhen(names != [], Rule(Rbac, [resource], names, [Update, Delete]), q);
  }

  lemma RbacMutationGrants(s: Session, q: Request)
    ensures Grants(RbacMutationRules(s), q) <==> RbacMutationTable(s, q)
  {
    var roleNames, bindingNames := ForeignRoleNames(s), ForeignBindingNames(s);
    ForeignNamesAre(s, q.name);
    MutationTableOfNames(s, roleNames, bindingNames, q);
    GrantsEither(NamedRule(ClusterRoles, roleNames), NamedRule(ClusterRoleBindings, bindingNames), q);
  }

  lemma MutationTableOfNames(s: Session, roleNames: seq<string>, bindingNames: seq<string>, q: Request)
    requires q.name in roleNames <==> ForeignRole(s, q.name)
    requires q.name in bindingNames <==> ForeignBinding(s, q.name)
    ensures RbacMutationTable(s, q) <==>
      Grants(NamedRule(ClusterRoles, roleNames), q) || Grants(NamedRule(ClusterRoleBindings, bindingNames), q)
  {
    NamedRuleGrants(ClusterRoles, roleNames, q);
    NamedRuleGrants(ClusterRoleBindings, bindingNames, q);
  }

  /** One Namespace class's share of the lifecycle rules. */
  predicate ClassTable(s: Session, permission: Permission, q: Request) {
    && Kind(q).NamespaceObject? && (q.verb == Update || q.verb == Patch || q.verb == Delete)
    && permission in s.held && IsListed(s, q.name) && LifecyclePermission(q.name, s.agentNamespace) == permission
  }

  lemma LifecycleRuleGrants(s: Session, permission: Permission, q: Request)
    ensures Grants(LifecycleRule(s, permission), q) <==> ClassTable(s, permission, q)
  {
    var names := LifecycleNames(s, permission);
    GrantsWhen(permission in s.held && names != [], Rule(Core, [Namespaces], names, [Update, Patch, Delete]), q);
    LifecycleNamesAre(s, permission, q.name);
  }

  lemma LifecycleUnion(s: Session, q: Request)
    ensures Grants(LifecycleRules(s), q) <==> (
      Grants(LifecycleRule(s, NamespaceManage), q) || Grants(LifecycleRule(s, SystemNamespaceManage), q)
      || Grants(LifecycleRule(s, AgentNamespaceManage), q)
      || (HoldsEveryClass(s.held) && Matches(AnyName(Core, [Namespaces], [Create]), q)))
  {
    var a, b, c := LifecycleRule(s, NamespaceManage), LifecycleRule(s, SystemNamespaceManage),
      LifecycleRule(s, AgentNamespaceManage);
    var create := AnyName(Core, [Namespaces], [Create]);
    GrantsEither(a, b, q);
    GrantsEither(a + b, c, q);
    GrantsEither(a + b + c, When(HoldsEveryClass(s.held), [create]), q);
    GrantsWhen(HoldsEveryClass(s.held), create, q);
  }

  predicate LifecycleTable(s: Session, q: Request) {
    && Kind(q).NamespaceObject? && !IsRead(q.verb)
    && (if q.verb == Create then HoldsAllThree(s.held) else IsListed(s, q.name) && MayChange(s, q.name))
  }

  lemma LifecycleTableIsUnion(s: Session, q: Request)
    ensures LifecycleTable(s, q) <==> (
      ClassTable(s, NamespaceManage, q) || ClassTable(s, SystemNamespaceManage, q)
        || ClassTable(s, AgentNamespaceManage, q)
      || (HoldsEveryClass(s.held) && Matches(AnyName(Core, [Namespaces], [Create]), q)))
  {
  }

  lemma LifecycleGrants(s: Session, q: Request)
    ensures Grants(LifecycleRules(s), q) <==> LifecycleTable(s, q)
  {
    LifecycleUnion(s, q);
    LifecycleRuleGrants(s, NamespaceManage, q);
    LifecycleRuleGrants(s, SystemNamespaceManage, q);
    LifecycleRuleGrants(s, AgentNamespaceManage, q);
    LifecycleTableIsUnion(s, q);
  }

  lemma ClusterScopedUnion(held: Permissions, q: Request)
    ensures Grants(ClusterScopedRules(held), q) <==>
      Grants(VolumePart(held), q) || Grants(NodePart(held), q) || Grants(ClusterRbacPart(held), q)
  {
    GrantsEither(VolumePart(held), NodePart(held), q);
    GrantsEither(VolumePart(held) + NodePart(held), ClusterRbacPart(held), q);
  }

  lemma NamespacedReadUnion(held: Permissions, q: Request)
    ensures Grants(NamespacedReadRules(held), q) <==> (
      Grants(WideReadPart(held), q) || Grants(ReadOnlyPart(held), q)
      || Grants(WideSecretPart(held), q) || Grants(WideRbacPart(held), q))
  {
    var a, b, c, d := WideReadPart(held), ReadOnlyPart(held), WideSecretPart(held), WideRbacPart(held);
    GrantsEither(a, b, q);
    GrantsEither(a + b, c, q);
    GrantsEither(a + b + c, d, q);
  }

  lemma ClusterUnion(s: Session, q: Request)
    ensures Grants(ClusterRules(s), q) <==> (
      Grants(ClusterScopedRules(s.held), q) || Grants(NamespacedReadRules(s.held), q)
      || (RbacManage in s.held && Grants(RbacMutationRules(s), q)) || Grants(LifecycleRules(s), q))
  {
    var a, b := ClusterScopedRules(s.held), NamespacedReadRules(s.held);
    var c, d := When(RbacManage in s.held, RbacMutationRules(s)), LifecycleRules(s);
    GrantsEither(a, b, q);
    GrantsEither(a + b, c, q);
    GrantsEither(a + b + c, d, q);
  }

  predicate ClusterScopedTable(held: Permissions, q: Request) {
    VolumeTable(held, q) || NodeTable(held, q) || ClusterRbacTable(held, q)
  }

  lemma ClusterScopedGrants(held: Permissions, q: Request)
    ensures Grants(ClusterScopedRules(held), q) <==> ClusterScopedTable(held, q)
  {
    ClusterScopedUnion(held, q);
    VolumePartGrants(held, q);
    NodePartGrants(held, q);
    ClusterRbacPartGrants(held, q);
  }

  predicate NamespacedReadTable(held: Permissions, q: Request) {
    match Kind(q)
    case Workload | Derived => IsRead(q.verb) && ClusterRead in held
    case Event => IsRead(q.verb) && EventRead in held
    case Log => q.verb == Get && PodLogsRead in held
    case Secret => IsRead(q.verb) && SecretRead in held && SystemNamespaceManage in held && AgentNamespaceManage in held
    case NamespacedRbac => IsRead(q.verb) && RbacRead in held
    case _ => false
  }

  lemma NamespacedReadGrants(held: Permissions, q: Request)
    ensures Grants(NamespacedReadRules(held), q) <==> NamespacedReadTable(held, q)
  {
    NamespacedReadUnion(held, q);
    WideReadPartGrants(held, q);
    ReadOnlyPartGrants(held, q);
    WideRestGrants(held, q);
  }

  predicate RbacMutationTable(s: Session, q: Request) {
    && (q.verb == Update || q.verb == Delete)
    && ((Kind(q).ClusterRole? && ForeignRole(s, q.name)) || (Kind(q).ClusterRoleBinding? && ForeignBinding(s, q.name)))
  }

  lemma ClusterTableIsUnion(s: Session, q: Request)
    ensures ClusterTable(s, q) <==> (
      ClusterScopedTable(s.held, q) || NamespacedReadTable(s.held, q)
      || (RbacManage in s.held && RbacMutationTable(s, q)) || LifecycleTable(s, q))
  {
  }

  /** The session's ClusterRole grants exactly its table. */
  lemma ClusterRulesGrant(s: Session, q: Request)
    ensures Grants(ClusterRules(s), q) <==> ClusterTable(s, q)
  {
    ClusterUnion(s, q);
    ClusterScopedGrants(s.held, q);
    NamespacedReadGrants(s.held, q);
    RbacMutationGrants(s, q);
    LifecycleGrants(s, q);
    ClusterTableIsUnion(s, q);
  }

  // ---------------------------------------------------------------- main results

  /** A Namespace the session is bound in: listed, and not terminating. */
  predicate Bound(s: Session, name: string) {
    exists n <- s.namespaces :: n.name == name && !n.terminating
  }

  lemma RoleIsProtectors(s: Session, b: Binding)
    ensures HasRole(s, b) <==> b.role == ProtectorOf(b.namespace, s.agentNamespace)
  {
  }

  /** What is bound in a Namespace is the one role of its class. */
  lemma BoundRole(s: Session, b: Binding)
    ensures b in Bindings(s, s.namespaces) <==>
      Bound(s, b.namespace) && b.role == ProtectorOf(b.namespace, s.agentNamespace)
  {
    RoleIsProtectors(s, b);
  }

  lemma UnionOfBindings(s: Session, q: Request)
    ensures Allowed(s, q) <==> Grants(ClusterRules(s), q) || GrantedWhereBound(s, q)
  {
    if q.namespace.In? {
      var name := q.namespace.namespace;
      BoundRole(s, Binding(name, ProtectorOf(name, s.agentNamespace)));
      forall b <- Bindings(s, s.namespaces) | b.namespace == name
        ensures Bound(s, name) && b.role == ProtectorOf(name, s.agentNamespace)
      {
        BoundRole(s, b);
      }
    }
  }

  predicate GrantedWhereBound(s: Session, q: Request) {
    q.namespace.In? && Bound(s, q.namespace.namespace)
    && Grants(NamespaceRules(s.held, ProtectorOf(q.namespace.namespace, s.agentNamespace)), q)
  }

  /** The Agent's own Namespace and those under "kube-". */
  predicate IsProtected(s: Session, name: string) {
    name == s.agentNamespace || "kube-" <= name
  }

  /** Whether a protected Namespace's own permission is held; an ordinary one has none. */
  predicate IsTrustedWith(s: Session, name: string) {
    if name == s.agentNamespace then AgentNamespaceManage in s.held
    else "kube-" <= name ==> SystemNamespaceManage in s.held
  }

  /** Writing a workload kind in a Namespace, by its name. */
  predicate MayWriteIn(s: Session, name: string, v: Verb) {
    if IsProtected(s, name) then IsTrustedWith(s, name)
    else match v
      case Create => ResourceCreate in s.held
      case Update | Patch => ResourceUpdate in s.held
      case Delete => ResourceDelete in s.held
      case _ => false
  }

  /** What a session may do in a Namespace it is bound in, by the Namespace's name. */
  predicate NamedTable(s: Session, name: string, q: Request) {
    match Kind(q)
    case Workload => if IsRead(q.verb) then ClusterRead in s.held else MayWriteIn(s, name, q.verb)
    case Derived => IsRead(q.verb) && ClusterRead in s.held
    case Event => IsRead(q.verb) && EventRead in s.held
    case Log => q.verb == Get && PodLogsRead in s.held
    case Exec => (q.verb == Get || q.verb == Create) && IsTrustedWith(s, name) && PodExec in s.held
    case PortForward => (q.verb == Get || q.verb == Create) && IsTrustedWith(s, name) && PodPortForward in s.held
    case Secret => IsTrustedWith(s, name) && (if IsRead(q.verb) then SecretRead in s.held else SecretManage in s.held)
    case NamespacedRbac =>
      if IsRead(q.verb) then RbacRead in s.held
      else q.verb != Patch && IsTrustedWith(s, name) && RbacManage in s.held
    case _ => false
  }

  lemma NamedTableIsRole(s: Session, name: string, q: Request)
    ensures NamespaceTable(s.held, ProtectorOf(name, s.agentNamespace), q) <==> NamedTable(s, name, q)
  {
  }

  /** The closed form: one of the two tables, the second only where the session is bound. */
  predicate TableAllows(s: Session, q: Request) {
    || ClusterTable(s, q)
    || (q.namespace.In? && Bound(s, q.namespace.namespace) && NamedTable(s, q.namespace.namespace, q))
  }

  /** The projection is exact: the union of all the session's bindings allows a request, in any
      Namespace or none, exactly when the table does. */
  lemma ProjectionIsExact(s: Session, q: Request)
    ensures Allowed(s, q) <==> TableAllows(s, q)
  {
    UnionOfBindings(s, q);
    ClusterRulesGrant(s, q);
    if q.namespace.In? {
      NamespaceRulesGrant(s.held, ProtectorOf(q.namespace.namespace, s.agentNamespace), q);
      NamedTableIsRole(s, q.namespace.namespace, q);
    }
  }

  /** A workload kind is writable only in a bound Namespace, with the ordinary permission or the
      protected Namespace's own. */
  lemma WorkloadWrites(s: Session, q: Request)
    requires Kind(q).Workload? && !IsRead(q.verb)
    ensures Allowed(s, q) <==>
      q.namespace.In? && Bound(s, q.namespace.namespace) && MayWriteIn(s, q.namespace.namespace, q.verb)
  {
    WorkloadTable(s, q);
    ProjectionIsExact(s, q);
  }

  lemma WorkloadTable(s: Session, q: Request)
    requires Kind(q).Workload? && !IsRead(q.verb)
    ensures TableAllows(s, q) <==>
      q.namespace.In? && Bound(s, q.namespace.namespace) && MayWriteIn(s, q.namespace.namespace, q.verb)
  {
  }

  /** Secrets are readable in a bound Namespace with SecretRead and, if it is protected, its own
      permission, and across the Cluster only with both; they are writable only where bound. */
  lemma SecretAccess(s: Session, q: Request)
    requires Kind(q).Secret?
    ensures Allowed(s, q) <==>
      if q.namespace.In? && Bound(s, q.namespace.namespace) then
        IsTrustedWith(s, q.namespace.namespace)
        && (if IsRead(q.verb) then SecretRead in s.held else SecretManage in s.held)
      else
        IsRead(q.verb) && SecretRead in s.held && SystemNamespaceManage in s.held && AgentNamespaceManage in s.held
  {
    SecretTable(s, q);
    ProjectionIsExact(s, q);
  }

  lemma SecretTable(s: Session, q: Request)
    requires Kind(q).Secret?
    ensures TableAllows(s, q) <==>
      if q.namespace.In? && Bound(s, q.namespace.namespace) then
        IsTrustedWith(s, q.namespace.namespace)
        && (if IsRead(q.verb) then SecretRead in s.held else SecretManage in s.held)
      else
        IsRead(q.verb) && SecretRead in s.held && SystemNamespaceManage in s.held && AgentNamespaceManage in s.held
  {
  }

  /** A Namespace comes into being only for a session that holds all three classes, and its
      object changes only for one that holds its own. */
  lemma NamespaceLifecycle(s: Session, q: Request)
    requires Kind(q).NamespaceObject? && !IsRead(q.verb)
    ensures Allowed(s, q) <==>
      if q.verb == Create then HoldsAllThree(s.held) else IsListed(s, q.name) && MayChange(s, q.name)
  {
    NamespaceObjectTable(s, q);
    ProjectionIsExact(s, q);
  }

  lemma NamespaceObjectTable(s: Session, q: Request)
    requires Kind(q).NamespaceObject? && !IsRead(q.verb)
    ensures TableAllows(s, q) <==>
      if q.verb == Create then HoldsAllThree(s.held) else IsListed(s, q.name) && MayChange(s, q.name)
  {
  }

  /** Everything the cluster-wide binding grants on a namespaced kind is read-only. */
  lemma WideGrantsOnNamespacedKindsAreReads(s: Session, q: Request)
    requires Grants(ClusterRules(s), q)
    requires Kind(q).Workload? || Kind(q).Derived? || Kind(q).Event? || Kind(q).Log? || Kind(q).Exec?
          || Kind(q).PortForward? || Kind(q).Secret? || Kind(q).NamespacedRbac?
    ensures IsRead(q.verb)
  {
    ClusterRulesGrant(s, q);
  }

  lemma TableIsMonotone(s: Session, more: Permissions, q: Request)
    requires s.held <= more && TableAllows(s, q)
    ensures TableAllows(s.(held := more), q)
  {
    if q.namespace.In? && Bound(s, q.namespace.namespace) {
      assert Bound(s.(held := more), q.namespace.namespace);
    }
  }

  /** More permissions never take anything away. */
  lemma ProjectionIsMonotone(s: Session, more: Permissions, q: Request)
    requires s.held <= more && Allowed(s, q)
    ensures Allowed(s.(held := more), q)
  {
    ProjectionIsExact(s, q);
    ProjectionIsExact(s.(held := more), q);
    TableIsMonotone(s, more, q);
  }
}
