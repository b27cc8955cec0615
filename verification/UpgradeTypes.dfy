/** Values of the Kubernetes upgrade (internal/domain/kubernetes_upgrade.go). */
module UpgradeTypes {
  import opened Roles
  import opened Versions

  datatype CliIdentity = CliIdentity(path: string, version: string, sha256: string)

  datatype Node = Node(
    name: string, uid: string, talosID: string, talosAddress: string, role: NodeRole, talosVersion: string,
    proxyEnabled: bool, proxyConfigKnown: bool, proxyConfigImage: string,
    apiServer: VersionText, controllerManager: VersionText, scheduler: VersionText,
    kubelet: VersionText, kubeletImage: string, targetKubeletImage: string, configFingerprint: string,
    ready: bool, unschedulable: bool)

  /** An observed kube-proxy pod, keyed by the node it runs on. */
  datatype Proxy = Proxy(nodeUID: string, name: string, version: VersionText)

  /** The permissions map and the observation time are not read by the planner or the rollout. */
  datatype Inventory = Inventory(
    clusterUID: string, talosClusterID: string, gateway: string, cli: CliIdentity,
    nodes: seq<Node>,
    proxyEnabled: bool, proxyConfigKnown: bool, targetProxyImage: string, proxyRolloutComplete: bool,
    proxies: seq<Proxy>, manifests: seq<string>, manifestsConverged: bool, healthy: bool)

  datatype NodePlan = NodePlan(
    clusterUID: string, name: string, uid: string, talosID: string, talosAddress: string, role: NodeRole,
    talosVersion: string, sourceVersion: VersionText, targetVersion: VersionText,
    sourceKubeletImage: string, targetKubeletImage: string, configFingerprint: string,
    originallyCordoned: bool, skip: bool)

  datatype Plan = Plan(
    clusterUID: string, talosClusterID: string, gateway: string, cli: CliIdentity,
    sourceVersion: VersionText, targetVersion: VersionText,
    proxyEnabled: bool, targetProxyImage: string, proxies: seq<Proxy>, nodes: seq<NodePlan>,
    manifests: seq<string>, skipControlPlane: bool, fingerprint: string)

  /** sameKubernetesUpgradePlan: plans agree in everything but the fingerprint. */
  predicate SamePlan(a: Plan, b: Plan) {
    a.(fingerprint := "") == b.(fingerprint := "")
  }
}
