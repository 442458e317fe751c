/**
 * What `initialize_workspace` does to the cluster: a fixed list of steps,
 * each creating one object in the workspace namespace, run in order until
 * the first step that raises. The two copy steps catch their own errors.
 */
module Provisioning {
  import opened Wrappers
  import opened Identity
  import opened Images
  import opened InitScript
  import opened Platform

  datatype Step =
    | CreateNamespace
    | CreateWorkspacePvc
    | CreateRegistryPvc
    | CreateWorkspaceSecret
    | CreateInitScriptConfigMap
    | CreateFeatureInstallationConfigMap
    | CreateWorkspaceInfoConfigMap
    | CopyPortDetectorConfigMap
    | CopyWildcardCertificate
    | CreateRegistryCredentials
    | CreateServiceAccount
    | CreateDeployment
    | CreateService
    | CreateIngress

  /** The steps in the order `initialize_workspace` runs them. */
  const Pipeline: seq<Step> :=
    [CreateNamespace, CreateWorkspacePvc, CreateRegistryPvc, CreateWorkspaceSecret,
     CreateInitScriptConfigMap, CreateFeatureInstallationConfigMap, CreateWorkspaceInfoConfigMap,
     CopyPortDetectorConfigMap, CopyWildcardCertificate, CreateRegistryCredentials,
     CreateServiceAccount, CreateDeployment, CreateService, CreateIngress]

  function StepIndex(s: Step): (k: nat)
    ensures k < |Pipeline| && Pipeline[k] == s
  {
    match s
    case CreateNamespace => 0
    case CreateWorkspacePvc => 1
    case CreateRegistryPvc => 2
    case CreateWorkspaceSecret => 3
    case CreateInitScriptConfigMap => 4
    case CreateFeatureInstallationConfigMap => 5
    case CreateWorkspaceInfoConfigMap => 6
    case CopyPortDetectorConfigMap => 7
    case CopyWildcardCertificate => 8
    case CreateRegistryCredentials => 9
    case CreateServiceAccount => 10
    case CreateDeployment => 11
    case CreateService => 12
    case CreateIngress => 13
  }

  /** The steps that catch and log their own errors. */
  predicate Tolerant(s: Step) {
    s == CopyPortDetectorConfigMap || s == CopyWildcardCertificate
  }

  /** Everything a run depends on besides the cluster. */
  datatype Request = Request(
    account: string,          // the AWS account of the image registry
    domain: string,           // the workspace domain
    ids: WorkspaceIds,
    config: WorkspaceConfig,
    forPool: bool,
    githubPat: string,
    generated: string,        // the output of `generate_init_script`
    created: string)          // the wall clock when the info document is built

  /** The object each step creates. */
  function Target(s: Step, namespace: string): Ref {
    match s
    case CreateNamespace => NamespaceRef(namespace)
    case CreateWorkspacePvc => Ref(PersistentVolumeClaim, namespace, "workspace-data")
    case CreateRegistryPvc => Ref(PersistentVolumeClaim, namespace, "registry-storage")
    case CreateWorkspaceSecret => Ref(Secret, namespace, "workspace-secret")
    case CreateInitScriptConfigMap => Ref(ConfigMap, namespace, "workspace-init")
    case CreateFeatureInstallationConfigMap => Ref(ConfigMap, namespace, "feature-install")
    case CreateWorkspaceInfoConfigMap => Ref(ConfigMap, namespace, "workspace-info")
    case CopyPortDetectorConfigMap => Ref(ConfigMap, namespace, "port-detector")
    case CopyWildcardCertificate => Ref(Secret, namespace, "workspace-domain-wildcard-tls")
    case CreateRegistryCredentials => Ref(Secret, namespace, "registry-credentials")
    case CreateServiceAccount => Ref(ServiceAccount, namespace, "workspace-controller")
    case CreateDeployment => Ref(Deployment, namespace, "workspace")
    case CreateService => Ref(Service, namespace, "workspace")
    case CreateIngress => Ref(Ingress, namespace, "workspace")
  }

  /** The shared object a copy step reads. */
  function Source(s: Step): Ref
    requires Tolerant(s)
  {
    if s == CopyPortDetectorConfigMap then Ref(ConfigMap, SystemNamespace, "port-detector")
    else Ref(Secret, SystemNamespace, "workspace-domain-wildcard-tls")
  }

  const RegistryHost := "registry.workspace-system.svc.cluster.local:5000"
  const ServicePort := 8443

  function RoleArn(account: string): string {
    "arn:aws:iam::" + account + ":role/workspace-controller-role"
  }

  /** The content a creating step gives its object. */
  function Made(s: Step, req: Request): Content
    requires !Tolerant(s) && |req.config.githubUrls| >= 1
  {
    match s
    case CreateNamespace => NamespaceObject(NamespaceLabels(req.ids, req.forPool))
    case CreateWorkspacePvc => Claim("ReadWriteMany", "10Gi", "efs-sc")
    case CreateRegistryPvc => Claim("ReadWriteOnce", "5Gi", "efs-sc")
    case CreateWorkspaceSecret => SecretObject(SecretData(req.ids.password, req.githubPat))
    case CreateInitScriptConfigMap => InitScriptMap(InitScript.InitScriptAsWritten(req.generated, req.account, req.ids, req.config))
    case CreateFeatureInstallationConfigMap => FeatureInstallMap
    case CreateWorkspaceInfoConfigMap => InfoMap(Info(req.ids, req.config, req.created))
    case CreateRegistryCredentials => RegistryAuth(RegistryHost)
    case CreateServiceAccount => ServiceAccountObject(RoleArn(req.account))
    case CreateDeployment =>
      DeploymentObject(Target(CreateServiceAccount, req.ids.namespace).name,
                       InitContainers(req.account, req.ids, req.config, req.forPool),
                       [CodeServerContainer(req.account, req.domain, req.ids), PortDetectorContainer()],
                       Target(CreateRegistryCredentials, req.ids.namespace).name)
    case CreateService => ServiceObject(ServicePort, ServicePort)
    case CreateIngress =>
      // The identifiers handed to `_create_ingress` carry no FQDN, so its fallback builds it.
      IngressObject(Fqdn(req.ids.subdomain, req.domain), WildcardHost(req.domain),
                    Target(CopyWildcardCertificate, req.ids.namespace).name,
                    Target(CreateService, req.ids.namespace).name, ServicePort)
  }

  /** One step on the cluster: the objects afterwards, and whether the step went through. */
  function Apply(s: Step, req: Request, objects: map<Ref, Content>, refused: set<Ref>): (map<Ref, Content>, bool)
    requires |req.config.githubUrls| >= 1
  {
    var t := Target(s, req.ids.namespace);
    if Tolerant(s) then
      if Source(s) in objects && t !in objects && t !in refused then (objects[t := objects[Source(s)]], true)
      else (objects, false)
    else if t !in objects && t !in refused then (objects[t := Made(s, req)], true)
    else (objects, false)
  }

  /** The steps run until one that is not tolerant fails: the objects afterwards, and the result. */
  function RunSteps(steps: seq<Step>, req: Request, objects: map<Ref, Content>, refused: set<Ref>): (map<Ref, Content>, bool)
    requires |req.config.githubUrls| >= 1
  {
    if steps == [] then (objects, true)
    else
      var (next, went) := Apply(steps[0], req, objects, refused);
      if !went && !Tolerant(steps[0]) then (next, false)
      else RunSteps(steps[1..], req, next, refused)
  }

  /** `initialize_workspace` on the cluster. */
  function Provision(req: Request, objects: map<Ref, Content>, refused: set<Ref>): (map<Ref, Content>, bool)
    requires |req.config.githubUrls| >= 1
  {
    RunSteps(Pipeline, req, objects, refused)
  }

  predicate DistinctTargets(steps: seq<Step>, namespace: string) {
    forall i, j :: 0 <= i < j < |steps| ==> Target(steps[i], namespace) != Target(steps[j], namespace)
  }

  // ---- The pipeline's shape ----

  /** No two steps create the same object. */
  lemma PipelineTargetsDistinct(namespace: string)
    ensures DistinctTargets(Pipeline, namespace)
  {
    forall i | 0 <= i < |Pipeline| ensures StepIndex(Pipeline[i]) == i {
    }
    forall s1: Step, s2: Step | Target(s1, namespace) == Target(s2, namespace) ensures s1 == s2 {
    }
  }

  // ---- What a run does ----

  /** Dropping the first step keeps the targets distinct. */
  lemma DistinctTail(steps: seq<Step>, namespace: string)
    requires steps != [] && DistinctTargets(steps, namespace)
    ensures DistinctTargets(steps[1..], namespace)
  {
    forall i, j | 0 <= i < j < |steps[1..]|
      ensures Target(steps[1..][i], namespace) != Target(steps[1..][j], namespace)
    {
      assert steps[1..][i] == steps[i + 1] && steps[1..][j] == steps[j + 1];
    }
  }

  /** A run only adds objects, and only the objects of its steps. */
  lemma {:induction false} RunStepsAdds(steps: seq<Step>, req: Request, objects: map<Ref, Content>, refused: set<Ref>)
    requires |req.config.githubUrls| >= 1
    ensures forall r :: r in objects ==>
      (r in RunSteps(steps, req, objects, refused).0 && RunSteps(steps, req, objects, refused).0[r] == objects[r])
    ensures forall r :: r in RunSteps(steps, req, objects, refused).0 ==>
      r in objects || exists k :: 0 <= k < |steps| && r == Target(steps[k], req.ids.namespace)
  {
    if steps != [] {
      var (next, went) := Apply(steps[0], req, objects, refused);
      RunStepsAdds(steps[1..], req, next, refused);
      forall r | r in RunSteps(steps, req, objects, refused).0
        ensures r in objects || exists k :: 0 <= k < |steps| && r == Target(steps[k], req.ids.namespace)
      {
        if r !in objects && r != Target(steps[0], req.ids.namespace) {
          assert r !in next;
          assert r in RunSteps(steps[1..], req, next, refused).0;
          var k :| 0 <= k < |steps[1..]| && r == Target(steps[1..][k], req.ids.namespace);
          assert r == Target(steps[k + 1], req.ids.namespace);
        }
      }
    }
  }

  /**
   * A run succeeds exactly when every step that is not a copy finds its
   * object absent and not refused; the copy steps never decide the result.
   */
  lemma {:induction false} RunStepsSucceeds(steps: seq<Step>, req: Request, objects: map<Ref, Content>, refused: set<Ref>)
    requires |req.config.githubUrls| >= 1 && DistinctTargets(steps, req.ids.namespace)
    ensures RunSteps(steps, req, objects, refused).1 <==>
      forall k :: 0 <= k < |steps| && !Tolerant(steps[k]) ==>
        Target(steps[k], req.ids.namespace) !in objects && Target(steps[k], req.ids.namespace) !in refused
  {
    if steps != [] {
      var ns := req.ids.namespace;
      var t := Target(steps[0], ns);
      var (next, went) := Apply(steps[0], req, objects, refused);
      DistinctTail(steps, ns);
      RunStepsSucceeds(steps[1..], req, next, refused);
      forall k | 1 <= k < |steps| ensures (Target(steps[k], ns) in next <==> Target(steps[k], ns) in objects) {
        assert Target(steps[k], ns) != t;
      }
      forall k | 0 <= k < |steps[1..]| ensures steps[1..][k] == steps[k + 1] {
      }
    }
  }

  /** A successful run leaves every created object with the step's content. */
  lemma {:induction false} RunStepsContents(steps: seq<Step>, req: Request, objects: map<Ref, Content>, refused: set<Ref>)
    requires |req.config.githubUrls| >= 1 && DistinctTargets(steps, req.ids.namespace)
    requires RunSteps(steps, req, objects, refused).1
    ensures forall k :: 0 <= k < |steps| && !Tolerant(steps[k]) ==>
      Target(steps[k], req.ids.namespace) in RunSteps(steps, req, objects, refused).0 &&
      RunSteps(steps, req, objects, refused).0[Target(steps[k], req.ids.namespace)] == Made(steps[k], req)
  {
    if steps != [] {
      var ns := req.ids.namespace;
      var (next, went) := Apply(steps[0], req, objects, refused);
      DistinctTail(steps, ns);
      RunStepsContents(steps[1..], req, next, refused);
      RunStepsAdds(steps[1..], req, next, refused);
      forall k | 0 <= k < |steps[1..]| ensures steps[1..][k] == steps[k + 1] {
      }
    }
  }

  /**
   * Once a step that is not a copy fails, the run has failed and no later
   * step creates its object.
   */
  lemma {:induction false} RunStepsAborts(steps: seq<Step>, req: Request, objects: map<Ref, Content>, refused: set<Ref>, k: nat)
    requires |req.config.githubUrls| >= 1 && DistinctTargets(steps, req.ids.namespace)
    requires k < |steps| && !Tolerant(steps[k])
    requires Target(steps[k], req.ids.namespace) in objects || Target(steps[k], req.ids.namespace) in refused
    ensures !RunSteps(steps, req, objects, refused).1
    ensures forall j :: k < j < |steps| ==>
      (Target(steps[j], req.ids.namespace) in RunSteps(steps, req, objects, refused).0 <==>
       Target(steps[j], req.ids.namespace) in objects)
  {
    var ns := req.ids.namespace;
    var t := Target(steps[0], ns);
    var (next, went) := Apply(steps[0], req, objects, refused);
    RunStepsSucceeds(steps, req, objects, refused);
    if k > 0 {
      DistinctTail(steps, ns);
      assert Target(steps[k], ns) != t;
      assert steps[1..][k - 1] == steps[k];
      if !went && !Tolerant(steps[0]) {
        forall j | k < j < |steps| ensures Target(steps[j], ns) in next <==> Target(steps[j], ns) in objects {
        }
      } else {
        RunStepsAborts(steps[1..], req, next, refused, k - 1);
        var after := RunSteps(steps[1..], req, next, refused).0;
        assert RunSteps(steps, req, objects, refused).0 == after;
        forall j | k < j < |steps|
          ensures Target(steps[j], ns) in after <==> Target(steps[j], ns) in objects
        {
          assert steps[1..][j - 1] == steps[j];
          assert Target(steps[j], ns) != t;
          assert Target(steps[j], ns) in next <==> Target(steps[j], ns) in objects;
        }
      }
    }
  }

  /**
   * Every creating step among the first `k` whose object was absent and not
   * refused, with the same true of all creating steps before it, leaves that
   * object with its content, whatever happens after step `k`.
   */
  lemma {:induction false} RunStepsPrefixContents(steps: seq<Step>, req: Request, objects: map<Ref, Content>,
                                                  refused: set<Ref>, k: nat)
    requires |req.config.githubUrls| >= 1 && DistinctTargets(steps, req.ids.namespace) && k <= |steps|
    requires forall j :: 0 <= j < k && !Tolerant(steps[j]) ==>
      Target(steps[j], req.ids.namespace) !in objects && Target(steps[j], req.ids.namespace) !in refused
    ensures forall j :: 0 <= j < k && !Tolerant(steps[j]) ==>
      Target(steps[j], req.ids.namespace) in RunSteps(steps, req, objects, refused).0 &&
      RunSteps(steps, req, objects, refused).0[Target(steps[j], req.ids.namespace)] == Made(steps[j], req)
  {
    if k > 0 {
      var ns := req.ids.namespace;
      var t := Target(steps[0], ns);
      var (next, went) := Apply(steps[0], req, objects, refused);
      DistinctTail(steps, ns);
      forall j | 0 <= j < k - 1 && !Tolerant(steps[1..][j])
        ensures Target(steps[1..][j], ns) !in next && Target(steps[1..][j], ns) !in refused
      {
        assert steps[1..][j] == steps[j + 1];
        assert Target(steps[j + 1], ns) != t;
      }
      RunStepsPrefixContents(steps[1..], req, next, refused, k - 1);
      RunStepsAdds(steps[1..], req, next, refused);
      forall j | 0 <= j < |steps[1..]| ensures steps[1..][j] == steps[j + 1] {
      }
    }
  }

  // ---- Runs of a few steps, as the phases of the service perform them ----

  /** A step that may fail, run on its own, is that step. */
  lemma OneStep(a: Step, req: Request, refused: set<Ref>, o0: map<Ref, Content>)
    requires |req.config.githubUrls| >= 1 && !Tolerant(a)
    ensures RunSteps([a], req, o0, refused) == Apply(a, req, o0, refused)
  {
    assert [a][1..] == [];
  }

  /** Two steps that may fail: the second runs only after the first went through. */
  lemma TwoSteps(a: Step, b: Step, req: Request, refused: set<Ref>,
                 o0: map<Ref, Content>, o1: map<Ref, Content>, ok1: bool, o2: map<Ref, Content>, ok2: bool)
    requires |req.config.githubUrls| >= 1 && !Tolerant(a) && !Tolerant(b)
    requires (o1, ok1) == Apply(a, req, o0, refused)
    requires ok1 ==> (o2, ok2) == Apply(b, req, o1, refused)
    ensures RunSteps([a, b], req, o0, refused) == if ok1 then (o2, ok2) else (o1, false)
  {
    assert [a, b][1..] == [b];
    if ok1 {
      OneStep(b, req, refused, o1);
    }
  }

  /** Three steps that may fail, each run only after the ones before it went through. */
  lemma ThreeSteps(a: Step, b: Step, c: Step, req: Request, refused: set<Ref>,
                   o0: map<Ref, Content>, o1: map<Ref, Content>, ok1: bool, o2: map<Ref, Content>, ok2: bool,
                   o3: map<Ref, Content>, ok3: bool)
    requires |req.config.githubUrls| >= 1 && !Tolerant(a) && !Tolerant(b) && !Tolerant(c)
    requires (o1, ok1) == Apply(a, req, o0, refused)
    requires ok1 ==> (o2, ok2) == Apply(b, req, o1, refused)
    requires ok1 && ok2 ==> (o3, ok3) == Apply(c, req, o2, refused)
    ensures RunSteps([a, b, c], req, o0, refused) ==
      if !ok1 then (o1, false) else if !ok2 then (o2, false) else (o3, ok3)
  {
    assert [a, b, c][1..] == [b, c];
    if ok1 {
      TwoSteps(b, c, req, refused, o1, o2, ok2, o3, ok3);
    }
  }

  /** Two tolerant copies: both always run, and the run goes on. */
  lemma TwoCopies(a: Step, b: Step, req: Request, refused: set<Ref>,
                  o0: map<Ref, Content>, o1: map<Ref, Content>, o2: map<Ref, Content>)
    requires |req.config.githubUrls| >= 1 && Tolerant(a) && Tolerant(b)
    requires o1 == Apply(a, req, o0, refused).0 && o2 == Apply(b, req, o1, refused).0
    ensures RunSteps([a, b], req, o0, refused) == (o2, true)
  {
    assert [b][1..] == [];
    assert RunSteps([b], req, o1, refused) == (o2, true);
    assert [a, b][1..] == [b];
  }

  // ---- The pipeline ----

  /** `initialize_workspace` returns `True` exactly when none of its creating steps meets an existing or refused object. */
  lemma ProvisionSucceeds(req: Request, objects: map<Ref, Content>, refused: set<Ref>)
    requires |req.config.githubUrls| >= 1
    ensures Provision(req, objects, refused).1 <==>
      forall s :: !Tolerant(s) ==> Target(s, req.ids.namespace) !in objects && Target(s, req.ids.namespace) !in refused
  {
    var ns := req.ids.namespace;
    PipelineTargetsDistinct(ns);
    RunStepsSucceeds(Pipeline, req, objects, refused);
    if Provision(req, objects, refused).1 {
      forall s | !Tolerant(s) ensures Target(s, ns) !in objects && Target(s, ns) !in refused {
        assert Pipeline[StepIndex(s)] == s;
      }
    }
  }

  /** A missing shared object makes its copy fail without changing the result. */
  lemma CopiesNeverDecide(req: Request, objects: map<Ref, Content>, refused: set<Ref>, s: Step)
    requires |req.config.githubUrls| >= 1 && Tolerant(s)
    ensures Provision(req, objects - {Source(s)}, refused).1 == Provision(req, objects, refused).1
  {
    SourceNeverCreated(req.ids.namespace, s);
    ProvisionIgnores(req, objects, refused, Source(s));
  }

  /** No creating step makes the shared object a copy step reads. */
  lemma SourceNeverCreated(namespace: string, s: Step)
    requires Tolerant(s)
    ensures forall t: Step :: !Tolerant(t) ==> Target(t, namespace) != Source(s)
  {
  }

  /** Whether the run succeeds does not depend on an object that no creating step makes. */
  lemma ProvisionIgnores(req: Request, objects: map<Ref, Content>, refused: set<Ref>, r: Ref)
    requires |req.config.githubUrls| >= 1
    requires forall t: Step :: !Tolerant(t) ==> Target(t, req.ids.namespace) != r
    ensures Provision(req, objects - {r}, refused).1 == Provision(req, objects, refused).1
  {
    ProvisionSucceeds(req, objects, refused);
    ProvisionSucceeds(req, objects - {r}, refused);
    forall t: Step | !Tolerant(t)
      ensures (Target(t, req.ids.namespace) in objects - {r}) == (Target(t, req.ids.namespace) in objects)
    {
    }
  }

  /** A failing step stops the pipeline: no later step creates anything. */
  lemma ProvisionAborts(req: Request, objects: map<Ref, Content>, refused: set<Ref>, s: Step)
    requires |req.config.githubUrls| >= 1 && !Tolerant(s)
    requires Target(s, req.ids.namespace) in objects || Target(s, req.ids.namespace) in refused
    ensures !Provision(req, objects, refused).1
    ensures forall later: Step :: StepIndex(later) > StepIndex(s) ==>
      (Target(later, req.ids.namespace) in Provision(req, objects, refused).0 <==> Target(later, req.ids.namespace) in objects)
    ensures (forall t: Step :: !Tolerant(t) && StepIndex(t) < StepIndex(s) ==>
               Target(t, req.ids.namespace) !in objects && Target(t, req.ids.namespace) !in refused) ==>
      forall t: Step :: !Tolerant(t) && StepIndex(t) < StepIndex(s) ==>
        Target(t, req.ids.namespace) in Provision(req, objects, refused).0 &&
        Provision(req, objects, refused).0[Target(t, req.ids.namespace)] == Made(t, req)
  {
    var ns := req.ids.namespace;
    PipelineTargetsDistinct(ns);
    RunStepsAborts(Pipeline, req, objects, refused, StepIndex(s));
    if forall t: Step :: !Tolerant(t) && StepIndex(t) < StepIndex(s) ==> Target(t, ns) !in objects && Target(t, ns) !in refused {
      forall j | 0 <= j < StepIndex(s) && !Tolerant(Pipeline[j])
        ensures Target(Pipeline[j], ns) !in objects && Target(Pipeline[j], ns) !in refused
      {
        assert StepIndex(Pipeline[j]) == j by { PipelineIndexOf(j); }
      }
      RunStepsPrefixContents(Pipeline, req, objects, refused, StepIndex(s));
    }
  }

  /** The ports on which a process started by an image's entrypoint listens. */
  function ListenPorts(dockerfile: seq<Instruction>): set<nat> {
    set i | 0 <= i < |dockerfile| && dockerfile[i].Entrypoint? :: dockerfile[i].bindPort
  }

  /**
   * The service forwards to port 8443 of the pod, but the wrapper image the
   * `code-server` container runs starts `code-server` on 8444 only.
   */
  lemma ServiceMissesCodeServer(req: Request)
    requires |req.config.githubUrls| >= 1
    ensures ListenPorts(WrapperDockerfile(req.account, req.ids)) == {CodeServerPort}
    ensures Made(CreateService, req).targetPort !in ListenPorts(WrapperDockerfile(req.account, req.ids))
  {
    var d := WrapperDockerfile(req.account, req.ids);
    assert d[5].Entrypoint?;
    assert forall i :: 0 <= i < 5 ==> !d[i].Entrypoint?;
  }

  /** The service as evidently intended: it forwards its port to the port `code-server` binds. */
  function CorrectedService(): Content {
    ServiceObject(ServicePort, CodeServerPort)
  }

  /** The corrected service still answers on 8443, where the ingress sends traffic, and reaches `code-server`. */
  lemma CorrectedServiceReachesCodeServer(req: Request)
    requires |req.config.githubUrls| >= 1
    ensures CorrectedService().port == Made(CreateIngress, req).backendPort
    ensures CorrectedService().targetPort in ListenPorts(WrapperDockerfile(req.account, req.ids))
  {
    ServiceMissesCodeServer(req);
  }

  /**
   * The `feature-install` ConfigMap is created, but no volume of the pod
   * shows it, while the init script's and the port detector's are mounted.
   * The file the startup runs first lies on the workspace volume, so it runs
   * only when something writes it there.
   */
  lemma FeatureInstallNeverMounted(req: Request)
    requires |req.config.githubUrls| >= 1
    ensures Target(CreateFeatureInstallationConfigMap, req.ids.namespace).name !in MountedConfigMaps(PodVolumes())
    ensures Target(CreateInitScriptConfigMap, req.ids.namespace).name in MountedConfigMaps(PodVolumes())
    ensures Target(CopyPortDetectorConfigMap, req.ids.namespace).name in MountedConfigMaps(PodVolumes())
    ensures var d := WrapperDockerfile(req.account, req.ids);
      d[|d| - 1].Entrypoint? && d[|d| - 1].optionalScripts[0] == InstallerPath
    ensures forall m :: m in CodeServerMounts() && Shows(m, InstallerPath) ==>
      m.path == "/workspaces" && VolumeOf(PodVolumes(), m.volume) == Some(ClaimVolume(Target(CreateWorkspacePvc, req.ids.namespace).name))
  {
    assert Target(CreateFeatureInstallationConfigMap, req.ids.namespace).name == "feature-install";
    assert Target(CreateWorkspacePvc, req.ids.namespace).name == "workspace-data";
    assert Target(CreateInitScriptConfigMap, req.ids.namespace).name == "workspace-init";
    assert Target(CopyPortDetectorConfigMap, req.ids.namespace).name == "port-detector";
    PodConfigMaps();
    OnlyWorkspaceMountShowsInstaller();
    StartupRunsInstallerFirst(req.account, req.ids);
  }

  /** With the corrected volumes, the `feature-install` ConfigMap's installer is the file the startup runs first. */
  lemma CorrectedVolumesMountInstaller(req: Request)
    requires |req.config.githubUrls| >= 1
    ensures Target(CreateFeatureInstallationConfigMap, req.ids.namespace).name in MountedConfigMaps(CorrectedPodVolumes())
    ensures MountedConfigMaps(PodVolumes()) <= MountedConfigMaps(CorrectedPodVolumes())
    ensures var m := CorrectedCodeServerMounts()[|CorrectedCodeServerMounts()| - 1];
      m.path == InstallerPath && m.subPath == InstallerKey &&
      VolumeOf(CorrectedPodVolumes(), m.volume) == Some(ConfigMapVolume(Target(CreateFeatureInstallationConfigMap, req.ids.namespace).name))
  {
    assert Target(CreateFeatureInstallationConfigMap, req.ids.namespace).name == "feature-install";
    PodConfigMaps();
    CorrectedPodConfigMaps();
  }

  /** A step's index is its position in the pipeline. */
  lemma PipelineIndexOf(j: nat)
    requires j < |Pipeline|
    ensures StepIndex(Pipeline[j]) == j
  {
  }

  /** After a successful run every object a creating step makes exists, with that step's content. */
  lemma ProvisionContents(req: Request, objects: map<Ref, Content>, refused: set<Ref>, s: Step)
    requires |req.config.githubUrls| >= 1 && !Tolerant(s)
    requires Provision(req, objects, refused).1
    ensures Target(s, req.ids.namespace) in Provision(req, objects, refused).0
    ensures Provision(req, objects, refused).0[Target(s, req.ids.namespace)] == Made(s, req)
  {
    PipelineTargetsDistinct(req.ids.namespace);
    RunStepsContents(Pipeline, req, objects, refused);
    assert Pipeline[StepIndex(s)] == s;
  }

  /**
   * The objects refer to each other consistently: the deployment runs as the
   * service account and pulls with the registry credentials, the ingress
   * sends its host to the service's port and presents the copied
   * certificate, and that host is the FQDN recorded in the namespace's labels.
   */
  lemma ObjectsWired(req: Request, workspaceId: string)
    requires |req.config.githubUrls| >= 1 && WellFormedIds(req.ids, workspaceId, req.domain)
    ensures var ns := req.ids.namespace;
      var deployment, ingress := Made(CreateDeployment, req), Made(CreateIngress, req);
      && deployment.DeploymentObject? && ingress.IngressObject?
      && deployment.serviceAccount == Target(CreateServiceAccount, ns).name
      && deployment.pullSecret == Target(CreateRegistryCredentials, ns).name
      && ingress.backend == Target(CreateService, ns).name
      && ingress.backendPort == Made(CreateService, req).port
      && ingress.tlsSecret == Target(CopyWildcardCertificate, ns).name
      && ingress.host == Made(CreateNamespace, req).labels["fqdn"]
      && CoveredByWildcard(ingress.host, ingress.tlsHost)
  {
    DeploymentWired(req);
    IngressWired(req, workspaceId);
  }

  /** The deployment half: service account and pull secret. */
  lemma DeploymentWired(req: Request)
    requires |req.config.githubUrls| >= 1
    ensures var ns := req.ids.namespace;
      var deployment := Made(CreateDeployment, req);
      && deployment.DeploymentObject?
      && deployment.serviceAccount == Target(CreateServiceAccount, ns).name
      && deployment.pullSecret == Target(CreateRegistryCredentials, ns).name
  {
  }

  /** The ingress half: host, certificate and backend. */
  lemma IngressWired(req: Request, workspaceId: string)
    requires |req.config.githubUrls| >= 1 && WellFormedIds(req.ids, workspaceId, req.domain)
    ensures var ns := req.ids.namespace;
      var ingress := Made(CreateIngress, req);
      && ingress.IngressObject?
      && ingress.backend == Target(CreateService, ns).name
      && ingress.backendPort == Made(CreateService, req).port
      && ingress.tlsSecret == Target(CopyWildcardCertificate, ns).name
      && ingress.host == Made(CreateNamespace, req).labels["fqdn"]
      && CoveredByWildcard(ingress.host, ingress.tlsHost)
  {
    IdsDetermined(req.ids, workspaceId, req.domain);
  }
}
