/** The RBAC a terminal session is given (pkg/agent/kubernetes_terminal_session.go): rule lists
    generated from the user's ZKE permissions, bound once for the whole Cluster and once in
    every Namespace, and what they add up to. */
module TerminalPolicy {
  import opened Options

  datatype Permission =
    | ClusterRead | ResourceCreate | ResourceUpdate | ResourceDelete
    | EventRead | PodLogsRead | PodExec | PodPortForward
    | SecretRead | SecretManage | RbacRead | RbacManage | NodeManage
    | NamespaceManage | SystemNamespaceManage | AgentNamespaceManage

  type Permissions = set<Permission>

  datatype Verb = Get | List | Watch | Create | Update | Patch | Delete

  datatype Group =
    | Core | Apps | Batch | Networking | Gateway | Autoscaling | VerticalAutoscaling | Keda | Policy
    | Storage | Scheduling | ApiExtensions | Rbac | OtherGroup(name: string)

  datatype Resource =
    | Pods | Services | Endpoints | ConfigMaps | PersistentVolumeClaims | ResourceQuotas | LimitRanges
    | Deployments | StatefulSets | DaemonSets | ReplicaSets | ControllerRevisions
    | Jobs | CronJobs | Ingresses | NetworkPolicies
    | Gateways | HttpRoutes | GrpcRoutes | TlsRoutes | TcpRoutes | UdpRoutes
    | HorizontalPodAutoscalers | VerticalPodAutoscalers | ScaledObjects | PodDisruptionBudgets
    | Events | PodLogs | PodsExec | PodsPortForward | Secrets | ServiceAccounts | Roles | RoleBindings
    | PersistentVolumes | StorageClasses | PriorityClasses | Nodes | Namespaces | CustomResourceDefinitions
    | ClusterRoles | ClusterRoleBindings | OtherResource(name: string)

  /** `names` empty means any name. */
  datatype Rule = Rule(group: Group, resources: seq<Resource>, names: seq<string>, verbs: seq<Verb>)

  const READ: seq<Verb> := [Get, List, Watch]

  const CORE_WORKLOADS: seq<Resource> :=
    [Pods, Services, Endpoints, ConfigMaps, PersistentVolumeClaims, ResourceQuotas, LimitRanges]

  function AnyName(group: Group, resources: seq<Resource>, verbs: seq<Verb>): Rule {
    Rule(group, resources, [], verbs)
  }

  function When<T>(condition: bool, items: seq<T>): seq<T> {
    if condition then items else []
  }

  // ---------------------------------------------------------------- the generated rules

  /** The class of a Namespace a role is meant for, and the permission that protects it. */
  datatype Protector = Ordinary | Protected(permission: Permission)

  /** terminalNamespacePolicyRules; its five parts follow. */
  function NamespaceRules(held: Permissions, p: Protector): seq<Rule> {
    WorkloadPart(held, p) + ReadOnlyPart(held) + StreamPart(held, p) + SecretPart(held, p) + RbacPart(held, p)
  }

  /** Whether the role may write at all in Namespaces of this class. */
  predicate Manages(held: Permissions, p: Protector) {
    p.Ordinary? || p.permission in held
  }

  function WorkloadPart(held: Permissions, p: Protector): seq<Rule> {
    var verbs := NamespaceVerbs(held, p);
    When(verbs != [], WorkloadRules(verbs) + When(ClusterRead in held,
      [AnyName(Apps, [ReplicaSets, ControllerRevisions], READ)]))
  }

  function ReadOnlyPart(held: Permissions): seq<Rule> {
    When(EventRead in held, [AnyName(Core, [Events], READ)])
    + When(PodLogsRead in held, [AnyName(Core, [PodLogs], [Get])])
  }

  function StreamPart(held: Permissions, p: Protector): seq<Rule> {
    When(Manages(held, p) && PodExec in held, [AnyName(Core, [PodsExec], [Get, Create])])
    + When(Manages(held, p) && PodPortForward in held, [AnyName(Core, [PodsPortForward], [Get, Create])])
  }

  function SecretPart(held: Permissions, p: Protector): seq<Rule> {
    var verbs := When(Manages(held, p) && SecretRead in held, READ)
               + When(Manages(held, p) && SecretManage in held, [Create, Update, Patch, Delete]);
    When(verbs != [], [AnyName(Core, [Secrets], verbs)])
  }

  function RbacPart(held: Permissions, p: Protector): seq<Rule> {
    var verbs := When(RbacRead in held, READ) + When(Manages(held, p) && RbacManage in held, [Create, Update, Delete]);
    When(verbs != [], [AnyName(Core, [ServiceAccounts], verbs), AnyName(Rbac, [Roles, RoleBindings], verbs)])
  }

  function NamespaceVerbs(held: Permissions, p: Protector): seq<Verb> {
    When(ClusterRead in held, READ)
    + When(Manages(held, p) && (p.Protected? || ResourceCreate in held), [Create])
    + When(Manages(held, p) && (p.Protected? || ResourceUpdate in held), [Update, Patch])
    + When(Manages(held, p) && (p.Protected? || ResourceDelete in held), [Delete])
  }

  function WorkloadRules(verbs: seq<Verb>): seq<Rule> {
    [ AnyName(Core, CORE_WORKLOADS, verbs),
      AnyName(Apps, [Deployments, StatefulSets, DaemonSets], verbs) ]
    + OtherWorkloadRules(verbs)
  }

  /** The workload rules that the cluster-wide read list repeats unchanged. */
  function OtherWorkloadRules(verbs: seq<Verb>): seq<Rule> {
    [ AnyName(Batch, [Jobs, CronJobs], verbs),
      AnyName(Networking, [Ingresses, NetworkPolicies], verbs),
      AnyName(Gateway, [Gateways, HttpRoutes, GrpcRoutes, TlsRoutes, TcpRoutes, UdpRoutes], verbs),
      AnyName(Autoscaling, [HorizontalPodAutoscalers], verbs),
      AnyName(VerticalAutoscaling, [VerticalPodAutoscalers], verbs),
      AnyName(Keda, [ScaledObjects], verbs),
      AnyName(Policy, [PodDisruptionBudgets], verbs) ]
  }

  /** terminalClusterPolicyRules. */
  function ClusterScopedRules(held: Permissions): seq<Rule> {
    VolumePart(held) + NodePart(held) + ClusterRbacPart(held)
  }

  function VolumePart(held: Permissions): seq<Rule> {
    var verbs := NamespaceVerbs(held, Ordinary);
    When(verbs != [], [ AnyName(Core, [PersistentVolumes], verbs),
                        AnyName(Storage, [StorageClasses], verbs),
                        AnyName(Scheduling, [PriorityClasses], verbs) ])
  }

  function NodePart(held: Permissions): seq<Rule> {
    When(ClusterRead in held, [ AnyName(Core, [Nodes, Namespaces], READ),
                                AnyName(ApiExtensions, [CustomResourceDefinitions], READ) ])
    + When(NodeManage in held, [AnyName(Core, [Nodes], [Update, Patch])])
  }

  function ClusterRbacPart(held: Permissions): seq<Rule> {
    var verbs := When(RbacRead in held, READ) + When(RbacManage in held, [Create]);
    When(verbs != [], [AnyName(Rbac, [ClusterRoles, ClusterRoleBindings], verbs)])
  }

  /** terminalNamespacedReadPolicyRules. */
  function NamespacedReadRules(held: Permissions): seq<Rule> {
    WideReadPart(held) + ReadOnlyPart(held) + WideSecretPart(held) + WideRbacPart(held)
  }

  function WideReadPart(held: Permissions): seq<Rule> {
    When(ClusterRead in held,
         [ AnyName(Core, CORE_WORKLOADS, READ),
           AnyName(Apps, [Deployments, StatefulSets, DaemonSets, ReplicaSets, ControllerRevisions], READ) ]
         + OtherWorkloadRules(READ))
  }

  function WideSecretPart(held: Permissions): seq<Rule> {
    When(SecretRead in held && SystemNamespaceManage in held && AgentNamespaceManage in held,
         [AnyName(Core, [Secrets], READ)])
  }

  function WideRbacPart(held: Permissions): seq<Rule> {
    When(RbacRead in held, [AnyName(Core, [ServiceAccounts], READ), AnyName(Rbac, [Roles, RoleBindings], READ)])
  }

  datatype Namespace = Namespace(name: string, terminating: bool)

  /** A ClusterRole or ClusterRoleBinding as listed; `roleRef` is the bound role of a binding. */
  datatype Listed = Listed(name: string, managedBy: string, roleRef: string)

  datatype Session = Session(
    held: Permissions, namespaces: seq<Namespace>, agentNamespace: string,
    clusterRoles: seq<Listed>, clusterRoleBindings: seq<Listed>)

  predicate IsKube(name: string) {
    "kube-" <= name
  }

  function Names<T>(items: seq<T>, keep: T -> bool, name: T -> string): (r: seq<string>)
    ensures forall n :: n in r <==> exists x <- items :: keep(x) && name(x) == n
  {
    if items == [] then [] else
      var rest := Names(items[..|items| - 1], keep, name);
      var last := items[|items| - 1];
      assert items == items[..|items| - 1] + [last];
      if keep(last) then rest + [name(last)] else rest
  }

  lemma NamesAre<T>(items: seq<T>, keep: T -> bool, name: T -> string, n: string)
    ensures n in Names(items, keep, name) <==> exists i :: 0 <= i < |items| && keep(items[i]) && name(items[i]) == n
  {
    if x :| x in items && keep(x) && name(x) == n {
      var i :| 0 <= i < |items| && items[i] == x;
    }
  }

  predicate ManagedByZke(o: Listed) {
    o.name == "zke-agent" || o.managedBy == "zke-server"
  }

  function ForeignRoleNames(s: Session): seq<string> {
    Names(s.clusterRoles, (o: Listed) => !ManagedByZke(o), (o: Listed) => o.name)
  }

  function ForeignBindingNames(s: Session): seq<string> {
    Names(s.clusterRoleBindings, (o: Listed) => !ManagedByZke(o) && o.roleRef != "zke-agent", (o: Listed) => o.name)
  }

  /** terminalClusterRBACMutationPolicyRules. */
  function RbacMutationRules(s: Session): seq<Rule> {
    NamedRule(ClusterRoles, ForeignRoleNames(s)) + NamedRule(ClusterRoleBindings, ForeignBindingNames(s))
  }

  function NamedRule(resource: Resource, names: seq<string>): seq<Rule> {
    When(names != [], [Rule(Rbac, [resource], names, [Update, Delete])])
  }

  /** The permission a Namespace object's own lifecycle answers to; `default` counts as system. */
  function LifecyclePermission(name: string, agentNamespace: string): Permission {
    if name == agentNamespace then AgentNamespaceManage
    else if name == "default" || IsKube(name) then SystemNamespaceManage
    else NamespaceManage
  }

  function LifecycleNames(s: Session, permission: Permission): seq<string> {
    Names(s.namespaces, InClass(s, permission), NameOf)
  }

  function InClass(s: Session, permission: Permission): Namespace -> bool {
    (n: Namespace) => LifecyclePermission(n.name, s.agentNamespace) == permission
  }

  function NameOf(n: Namespace): string {
    n.name
  }

  function LifecycleRule(s: Session, permission: Permission): seq<Rule> {
    var names := LifecycleNames(s, permission);
    When(permission in s.held && names != [], [Rule(Core, [Namespaces], names, [Update, Patch, Delete])])
  }

  predicate HoldsEveryClass(held: Permissions) {
    NamespaceManage in held && SystemNamespaceManage in held && AgentNamespaceManage in held
  }

  /** terminalNamespaceLifecyclePolicyRules. */
  function LifecycleRules(s: Session): seq<Rule> {
    LifecycleRule(s, NamespaceManage) + LifecycleRule(s, SystemNamespaceManage) + LifecycleRule(s, AgentNamespaceManage)
    + When(HoldsEveryClass(s.held), [AnyName(Core, [Namespaces], [Create])])
  }

  /** The rules of the session's ClusterRole, as createKubernetesTerminalSession assembles them. */
  function ClusterRules(s: Session): seq<Rule> {
    ClusterScopedRules(s.held) + NamespacedReadRules(s.held)
    + When(RbacManage in s.held, RbacMutationRules(s))
    + LifecycleRules(s)
  }

  /** Which of the three roles terminalNamespaceRoleBindings binds in a Namespace. */
  function ProtectorOf(name: string, agentNamespace: string): Protector {
    if name == agentNamespace then Protected(AgentNamespaceManage)
    else if IsKube(name) then Protected(SystemNamespaceManage)
    else Ordinary
  }

  datatype Binding = Binding(namespace: string, role: Protector)

  /** The Agent's own Namespace has the role that needs its permission, all others under "kube-" the
      one that needs the system permission, the rest the ordinary one. */
  predicate HasRole(s: Session, b: Binding) {
    if b.namespace == s.agentNamespace then b.role == Protected(AgentNamespaceManage)
    else if "kube-" <= b.namespace then b.role == Protected(SystemNamespaceManage)
    else b.role == Ordinary
  }

  /** terminalNamespaceRoleBindings: one binding per Namespace that is not terminating. */
  function Bindings(s: Session, namespaces: seq<Namespace>): (r: seq<Binding>)
    ensures forall b :: b in r <==> exists n <- namespaces :: !n.terminating && n.name == b.namespace && HasRole(s, b)
  {
    if namespaces == [] then [] else
      var last := namespaces[|namespaces| - 1];
      assert namespaces == namespaces[..|namespaces| - 1] + [last];
      Bindings(s, namespaces[..|namespaces| - 1])
      + When(!last.terminating, [Binding(last.name, ProtectorOf(last.name, s.agentNamespace))])
  }

  // ---------------------------------------------------------------- the loops that build the lists

  lemma NextName<T>(items: seq<T>, i: nat, keep: T -> bool, name: T -> string)
    requires i < |items|
    ensures Names(items[..i + 1], keep, name)
         == Names(items[..i], keep, name) + When(keep(items[i]), [name(items[i])])
  {
    assert items[..i + 1][..i] == items[..i];
  }

  method NamespaceRoleBindings(s: Session) returns (bindings: seq<Binding>)
    ensures bindings == Bindings(s, s.namespaces)
    ensures forall b :: b in bindings <==>
              exists n <- s.namespaces :: !n.terminating && n.name == b.namespace && HasRole(s, b)
  {
    bindings := [];
    for i := 0 to |s.namespaces|
      invariant bindings == Bindings(s, s.namespaces[..i])
    {
      assert s.namespaces[..i + 1][..i] == s.namespaces[..i];
      if !s.namespaces[i].terminating {
        bindings := bindings + [Binding(s.namespaces[i].name, ProtectorOf(s.namespaces[i].name, s.agentNamespace))];
      }
    }
    assert s.namespaces[..|s.namespaces|] == s.namespaces;
  }

  predicate IsListed(s: Session, name: string) {
    exists n <- s.namespaces :: n.name == name
  }

  method NamespacesByClass(s: Session) returns (ordinary: seq<string>, system: seq<string>, agent: seq<string>)
    ensures ordinary == LifecycleNames(s, NamespaceManage)
    ensures system == LifecycleNames(s, SystemNamespaceManage)
    ensures agent == LifecycleNames(s, AgentNamespaceManage)
    ensures forall n :: n in agent <==> IsListed(s, n) && n == s.agentNamespace
    ensures forall n :: n in system <==> IsListed(s, n) && n != s.agentNamespace && (n == "default" || "kube-" <= n)
    ensures forall n :: n in ordinary <==> IsListed(s, n) && n != s.agentNamespace && n != "default" && !("kube-" <= n)
  {
    ordinary, system, agent := [], [], [];
    var all := s.namespaces;
    ghost var ours, systems, agents := InClass(s, NamespaceManage), InClass(s, SystemNamespaceManage),
        InClass(s, AgentNamespaceManage);
    for i := 0 to |all|
      invariant ordinary == Names(all[..i], ours, NameOf)
      invariant system == Names(all[..i], systems, NameOf)
      invariant agent == Names(all[..i], agents, NameOf)
    {
      NextName(all, i, ours, NameOf);
      NextName(all, i, systems, NameOf);
      NextName(all, i, agents, NameOf);
      if all[i].name == s.agentNamespace {
        agent := agent + [all[i].name];
      } else if all[i].name == "default" || IsKube(all[i].name) {
        system := system + [all[i].name];
      } else {
        ordinary := ordinary + [all[i].name];
      }
    }
    assert all[..|all|] == all;
  }

  // ---------------------------------------------------------------- what rules allow

  /** A request; `namespace` is None when it spans the Cluster. */
  datatype Request = Request(namespace: Namespaced, group: Group, resource: Resource, name: string, verb: Verb)

  datatype Namespaced = ClusterWide | In(namespace: string)

  predicate Matches(r: Rule, q: Request) {
    && q.group == r.group && q.resource in r.resources && q.verb in r.verbs
    && (r.names == [] || q.name in r.names)
  }

  predicate Grants(rules: seq<Rule>, q: Request) {
    exists r <- rules :: Matches(r, q)
  }

  /** RBAC is additive: a request passes if the cluster binding or a binding in its own
      Namespace grants it. */
  predicate Allowed(s: Session, q: Request) {
    || Grants(ClusterRules(s), q)
    || (q.namespace.In? && exists b <- Bindings(s, s.namespaces) ::
          b.namespace == q.namespace.namespace && Grants(NamespaceRules(s.held, b.role), q))
  }

  lemma GrantsEither(a: seq<Rule>, b: seq<Rule>, q: Request)
    ensures Grants(a + b, q) <==> Grants(a, q) || Grants(b, q)
  {
    if Grants(a, q) {
      var r :| r in a && Matches(r, q);
      assert r in a + b;
    }
    if Grants(b, q) {
      var r :| r in b && Matches(r, q);
      assert r in a + b;
    }
  }

  lemma GrantsWhen(condition: bool, rule: Rule, q: Request)
    ensures Grants(When(condition, [rule]), q) <==> condition && Matches(rule, q)
  {
    assert rule in [rule];
  }

  lemma GrantsWhen2(condition: bool, a: Rule, b: Rule, q: Request)
    ensures Grants(When(condition, [a, b]), q) <==> condition && (Matches(a, q) || Matches(b, q))
  {
    assert a in [a, b] && b in [a, b];
  }

  lemma GrantsWhen3(condition: bool, a: Rule, b: Rule, c: Rule, q: Request)
    ensures Grants(When(condition, [a, b, c]), q) <==> condition && (Matches(a, q) || Matches(b, q) || Matches(c, q))
  {
    assert a in [a, b, c] && b in [a, b, c] && c in [a, b, c];
  }
}
