/**
 * `WorkspaceInitializer`: the service object that derives a workspace's
 * identifiers, creates its objects step by step on the cluster, and tears a
 * failed workspace down again.
 */
module Initializer {
  import opened Wrappers
  import opened Identity
  import opened Platform
  import opened Provisioning
  import opened Teardown

  class WorkspaceInitializer {
    /** The Kubernetes API (`core_v1`, `apps_v1` and the networking client together). */
    const cluster: Cluster
    const domain: string
    const account: string

    constructor (cluster: Cluster, domain: string, account: string)
      ensures this.cluster == cluster && this.domain == domain && this.account == account
    {
      this.cluster := cluster;
      this.domain := domain;
      this.account := account;
    }

    /** The twelve `_create_*` helpers: each builds its object and creates it, raising when the server refuses. */
    method CreateObject(s: Step, req: Request, ghost steps: seq<Step>) returns (ok: bool)
      requires !Tolerant(s) && |req.config.githubUrls| >= 1 && steps != [] && steps[0] == s
      modifies cluster
      ensures (cluster.objects, ok) == Apply(s, req, old(cluster.objects), cluster.refused)
      ensures RunSteps(steps, req, old(cluster.objects), cluster.refused) ==
              if ok then RunSteps(steps[1..], req, cluster.objects, cluster.refused) else (cluster.objects, false)
      ensures cluster.OnlyObjectsChanged()
    {
      ok := cluster.Create(Target(s, req.ids.namespace), Made(s, req));
    }

    /** `_copy_port_detector_configmap` and `_copy_wildcard_certificate`: read the shared object and copy it; errors are only logged. */
    method CopySharedObject(s: Step, req: Request, ghost steps: seq<Step>)
      requires Tolerant(s) && |req.config.githubUrls| >= 1 && steps != [] && steps[0] == s
      modifies cluster
      ensures cluster.objects == Apply(s, req, old(cluster.objects), cluster.refused).0
      ensures RunSteps(steps, req, old(cluster.objects), cluster.refused) ==
              RunSteps(steps[1..], req, cluster.objects, cluster.refused)
      ensures cluster.OnlyObjectsChanged()
    {
      var shared := cluster.Read(Source(s));
      if shared.Some? {
        var copied := cluster.Create(Target(s, req.ids.namespace), shared.value);
      }
    }

    /** The namespace, which every later object lives in. */
    method CreateNamespaceFirst(req: Request) returns (ok: bool)
      requires |req.config.githubUrls| >= 1
      modifies cluster
      ensures (cluster.objects, ok) == RunSteps([CreateNamespace], req, old(cluster.objects), cluster.refused)
      ensures RunSteps(Pipeline, req, old(cluster.objects), cluster.refused) ==
              if ok then RunSteps(Pipeline[1..], req, cluster.objects, cluster.refused) else (cluster.objects, false)
      ensures cluster.OnlyObjectsChanged()
    {
      ok := CreateObject(CreateNamespace, req, Pipeline);
      OneStep(CreateNamespace, req, cluster.refused, old(cluster.objects));
    }

    /** The two persistent volume claims. */
    method CreateVolumes(req: Request) returns (ok: bool)
      requires |req.config.githubUrls| >= 1
      modifies cluster
      ensures (cluster.objects, ok) == RunSteps([CreateWorkspacePvc, CreateRegistryPvc], req, old(cluster.objects), cluster.refused)
      ensures RunSteps(Pipeline[1..], req, old(cluster.objects), cluster.refused) ==
              if ok then RunSteps(Pipeline[3..], req, cluster.objects, cluster.refused) else (cluster.objects, false)
      ensures cluster.OnlyObjectsChanged()
    {
      ghost var o0 := cluster.objects;
      ok := CreateObject(CreateWorkspacePvc, req, Pipeline[1..]);
      assert Pipeline[1..][1..] == Pipeline[2..];
      ghost var o1, ok1 := cluster.objects, ok;
      if ok {
        ok := CreateObject(CreateRegistryPvc, req, Pipeline[2..]);
        assert Pipeline[2..][1..] == Pipeline[3..];
      }
      TwoSteps(CreateWorkspacePvc, CreateRegistryPvc, req, cluster.refused, o0, o1, ok1, cluster.objects, ok);
    }

    /** The workspace secret and the init script's configuration map. */
    method CreateSecretAndInitScript(req: Request) returns (ok: bool)
      requires |req.config.githubUrls| >= 1
      modifies cluster
      ensures (cluster.objects, ok) == RunSteps([CreateWorkspaceSecret, CreateInitScriptConfigMap], req, old(cluster.objects), cluster.refused)
      ensures RunSteps(Pipeline[3..], req, old(cluster.objects), cluster.refused) ==
              if ok then RunSteps(Pipeline[5..], req, cluster.objects, cluster.refused) else (cluster.objects, false)
      ensures cluster.OnlyObjectsChanged()
    {
      ghost var o0 := cluster.objects;
      ok := CreateObject(CreateWorkspaceSecret, req, Pipeline[3..]);
      assert Pipeline[3..][1..] == Pipeline[4..];
      ghost var o1, ok1 := cluster.objects, ok;
      if ok {
        ok := CreateObject(CreateInitScriptConfigMap, req, Pipeline[4..]);
        assert Pipeline[4..][1..] == Pipeline[5..];
      }
      TwoSteps(CreateWorkspaceSecret, CreateInitScriptConfigMap, req, cluster.refused, o0, o1, ok1, cluster.objects, ok);
    }

    /** The feature-installation and workspace-info configuration maps. */
    method CreateFeatureAndInfoConfigMaps(req: Request) returns (ok: bool)
      requires |req.config.githubUrls| >= 1
      modifies cluster
      ensures (cluster.objects, ok) == RunSteps([CreateFeatureInstallationConfigMap, CreateWorkspaceInfoConfigMap], req, old(cluster.objects), cluster.refused)
      ensures RunSteps(Pipeline[5..], req, old(cluster.objects), cluster.refused) ==
              if ok then RunSteps(Pipeline[7..], req, cluster.objects, cluster.refused) else (cluster.objects, false)
      ensures cluster.OnlyObjectsChanged()
    {
      ghost var o0 := cluster.objects;
      ok := CreateObject(CreateFeatureInstallationConfigMap, req, Pipeline[5..]);
      assert Pipeline[5..][1..] == Pipeline[6..];
      ghost var o1, ok1 := cluster.objects, ok;
      if ok {
        ok := CreateObject(CreateWorkspaceInfoConfigMap, req, Pipeline[6..]);
        assert Pipeline[6..][1..] == Pipeline[7..];
      }
      TwoSteps(CreateFeatureInstallationConfigMap, CreateWorkspaceInfoConfigMap, req, cluster.refused, o0, o1, ok1, cluster.objects, ok);
    }

    /** The two copies from the system namespace; neither can fail the run. */
    method CopySharedResources(req: Request)
      requires |req.config.githubUrls| >= 1
      modifies cluster
      ensures cluster.objects == RunSteps([CopyPortDetectorConfigMap, CopyWildcardCertificate], req, old(cluster.objects), cluster.refused).0
      ensures RunSteps(Pipeline[7..], req, old(cluster.objects), cluster.refused) ==
              RunSteps(Pipeline[9..], req, cluster.objects, cluster.refused)
      ensures cluster.OnlyObjectsChanged()
    {
      ghost var o0 := cluster.objects;
      CopySharedObject(CopyPortDetectorConfigMap, req, Pipeline[7..]);
      assert Pipeline[7..][1..] == Pipeline[8..];
      ghost var o1 := cluster.objects;
      CopySharedObject(CopyWildcardCertificate, req, Pipeline[8..]);
      assert Pipeline[8..][1..] == Pipeline[9..];
      TwoCopies(CopyPortDetectorConfigMap, CopyWildcardCertificate, req, cluster.refused, o0, o1, cluster.objects);
    }

    /** The registry credentials and the service account the deployment uses. */
    method CreateIdentityResources(req: Request) returns (ok: bool)
      requires |req.config.githubUrls| >= 1
      modifies cluster
      ensures (cluster.objects, ok) == RunSteps([CreateRegistryCredentials, CreateServiceAccount], req, old(cluster.objects), cluster.refused)
      ensures RunSteps(Pipeline[9..], req, old(cluster.objects), cluster.refused) ==
              if ok then RunSteps(Pipeline[11..], req, cluster.objects, cluster.refused) else (cluster.objects, false)
      ensures cluster.OnlyObjectsChanged()
    {
      ghost var o0 := cluster.objects;
      ok := CreateObject(CreateRegistryCredentials, req, Pipeline[9..]);
      assert Pipeline[9..][1..] == Pipeline[10..];
      ghost var o1, ok1 := cluster.objects, ok;
      if ok {
        ok := CreateObject(CreateServiceAccount, req, Pipeline[10..]);
        assert Pipeline[10..][1..] == Pipeline[11..];
      }
      TwoSteps(CreateRegistryCredentials, CreateServiceAccount, req, cluster.refused, o0, o1, ok1, cluster.objects, ok);
    }

    /** The deployment, then the service and the ingress in front of it. */
    method CreateWorkload(req: Request) returns (ok: bool)
      requires |req.config.githubUrls| >= 1
      modifies cluster
      ensures (cluster.objects, ok) == RunSteps([CreateDeployment, CreateService, CreateIngress], req, old(cluster.objects), cluster.refused)
      ensures RunSteps(Pipeline[11..], req, old(cluster.objects), cluster.refused) ==
              if ok then RunSteps(Pipeline[14..], req, cluster.objects, cluster.refused) else (cluster.objects, false)
      ensures cluster.OnlyObjectsChanged()
    {
      ghost var o0 := cluster.objects;
      ok := CreateObject(CreateDeployment, req, Pipeline[11..]);
      assert Pipeline[11..][1..] == Pipeline[12..];
      ghost var o1, ok1 := cluster.objects, ok;
      ghost var o2, ok2 := o1, ok1;
      if ok {
        ok := CreateObject(CreateService, req, Pipeline[12..]);
        assert Pipeline[12..][1..] == Pipeline[13..];
        o2, ok2 := cluster.objects, ok;
        if ok {
          ok := CreateObject(CreateIngress, req, Pipeline[13..]);
          assert Pipeline[13..][1..] == Pipeline[14..];
        }
      }
      ThreeSteps(CreateDeployment, CreateService, CreateIngress, req, cluster.refused,
                 o0, o1, ok1, o2, ok2, cluster.objects, ok);
    }

    /**
     * `initialize_workspace`: derive the identifiers and the configuration,
     * then run the steps in order, returning `false` at the first one that
     * raises. `now`, `generated` and `created` stand for the clock and for
     * `generate_init_script`; `req` records what the run was given.
     */
    method InitializeWorkspace(workspaceId: string, repoName: string, branchName: string, githubPat: string,
                               poolName: string, forPool: bool, buildTimestamp: string,
                               now: string, generated: string, created: string)
        returns (ok: bool, req: Request)
      modifies cluster
      ensures WellFormedIds(req.ids, workspaceId, domain)
      ensures req.ids.buildTimestamp == EffectiveTimestamp(buildTimestamp, now)
      ensures req.config == MakeConfig(repoName, branchName, poolName)
      ensures req.account == account && req.domain == domain && req.forPool == forPool
      ensures req.githubPat == githubPat && req.generated == generated && req.created == created
      ensures (cluster.objects, ok) == Provision(req, old(cluster.objects), old(cluster.refused))
      ensures cluster.OnlyObjectsChanged()
    {
      var timestamp := EffectiveTimestamp(buildTimestamp, now);
      var subdomain := GenerateRandomSubdomain();
      var password := GenerateRandomPassword();
      var ids := MakeIds(workspaceId, timestamp, subdomain, domain, password);
      var config := MakeConfig(repoName, branchName, poolName);
      req := Request(account, domain, ids, config, forPool, githubPat, generated, created);

      ok := CreateNamespaceFirst(req);
      if !ok { return; }
      ok := CreateVolumes(req);
      if !ok { return; }
      ok := CreateSecretAndInitScript(req);
      if !ok { return; }
      ok := CreateFeatureAndInfoConfigMaps(req);
      if !ok { return; }
      CopySharedResources(req);
      ok := CreateIdentityResources(req);
      if !ok { return; }
      ok := CreateWorkload(req);
      assert Pipeline[14..] == [];
    }

    /** The four collection deletions that open `_cleanup_failed_workspace`; each failure is logged as a warning and the next one still runs. */
    method SweepNamespace(namespace: string) returns (warnings: seq<Kind>)
      modifies cluster
      ensures (cluster.objects, warnings) == Sweep(old(cluster.objects), namespace, SweptKinds, cluster.refusedCollections)
      ensures cluster.OnlyObjectsChanged()
    {
      ghost var refused := cluster.refusedCollections;
      ghost var o0 := cluster.objects;
      var w0 := DeleteSweptCollection(namespace, 0);
      ghost var o1 := cluster.objects;
      var w1 := DeleteSweptCollection(namespace, 1);
      ghost var o2 := cluster.objects;
      var w2 := DeleteSweptCollection(namespace, 2);
      ghost var o3 := cluster.objects;
      var w3 := DeleteSweptCollection(namespace, 3);
      warnings := w0 + w1 + w2 + w3;
      SweepInFour(namespace, refused, o0, o1, o2, o3, cluster.objects, w0, w1, w2, w3);
    }

    /**
     * One of the four best-effort deletions: the `k`-th kind is deleted, or
     * the failure is returned as the warning to log; the sweep goes on.
     */
    method DeleteSweptCollection(namespace: string, k: nat) returns (failed: seq<Kind>)
      requires k < |SweptKinds|
      modifies cluster
      ensures var deleted := (SweptKinds[k], namespace) !in cluster.refusedCollections;
        && cluster.objects == (if deleted then Without(old(cluster.objects), SweptKinds[k], namespace) else old(cluster.objects))
        && failed == (if deleted then [] else [SweptKinds[k]])
      ensures SweepsOne(namespace, cluster.refusedCollections, k, old(cluster.objects), cluster.objects, failed)
      ensures cluster.OnlyObjectsChanged()
    {
      SweepFirst(cluster.objects, namespace, SweptKinds[k..], cluster.refusedCollections);
      assert SweptKinds[k..][0] == SweptKinds[k] && SweptKinds[k..][1..] == SweptKinds[k + 1..];
      var deleted := cluster.DeleteCollection(SweptKinds[k], namespace);
      failed := if deleted then [] else [SweptKinds[k]];
    }

    /**
     * `_cleanup_failed_workspace`: sweep the namespace's collections, delete
     * the namespace and wait for it to go. Nothing it meets escapes. The wait
     * is assumed to end within the answers the cluster will give.
     */
    method CleanupFailedWorkspace(ids: WorkspaceIds) returns (result: CleanupResult, warnings: seq<Kind>)
      requires Cleanup(ids.namespace, cluster.objects, cluster.refusedCollections,
                       cluster.refusedNamespaceDeletes, cluster.answers).Some?
      modifies cluster
      ensures var o := Cleanup(ids.namespace, old(cluster.objects), old(cluster.refusedCollections),
                               old(cluster.refusedNamespaceDeletes), old(cluster.answers)).value;
        && result == o.result && warnings == o.warnings && cluster.objects == o.objects
        && o.polls <= |old(cluster.answers)| && cluster.answers == old(cluster.answers)[o.polls..]
        && cluster.terminating == (if o.namespaceDeleted then old(cluster.terminating) + {ids.namespace}
                                   else old(cluster.terminating))
      ensures cluster.refused == old(cluster.refused) && cluster.refusedCollections == old(cluster.refusedCollections)
      ensures cluster.refusedNamespaceDeletes == old(cluster.refusedNamespaceDeletes)
    {
      var namespace := ids.namespace;
      warnings := SweepNamespace(namespace);
      var deleted := cluster.DeleteNamespace(namespace);
      if !deleted {
        result := CleanupFailed;
        return;
      }

      ghost var answers := cluster.answers;
      ghost var swept := cluster.objects;
      ghost var how := Poll(answers, MaxRetries).value.0;
      ghost var total := Poll(answers, MaxRetries).value.1;
      ghost var consumed := 0;
      var maxRetries := MaxRetries;
      while maxRetries > 0
        invariant Poll(cluster.answers, maxRetries).Some?
        invariant Poll(cluster.answers, maxRetries).value.0 == how
        invariant Poll(cluster.answers, maxRetries).value.1 + consumed == total
        invariant consumed <= |answers| && cluster.answers == answers[consumed..]
        invariant cluster.objects == swept
        invariant cluster.refused == old(cluster.refused) && cluster.refusedCollections == old(cluster.refusedCollections)
        invariant cluster.refusedNamespaceDeletes == old(cluster.refusedNamespaceDeletes)
        invariant cluster.terminating == old(cluster.terminating) + {namespace}
        decreases |cluster.answers|
      {
        var answer := cluster.ReadNamespace(namespace);
        consumed := consumed + 1;
        match answer
        case Present =>
          maxRetries := maxRetries - 1;
        case ApiError(status) =>
          if status == 404 {
            break;
          }
        case OtherError =>
          result := CleanupFailed;
          return;
      }
      result := if maxRetries == 0 then TimedOut else Cleaned;
    }
  }
}
