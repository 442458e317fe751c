/**
 * Identity and configuration of one workspace: the generated subdomain and
 * password, the namespace that isolates it, its fully qualified domain name,
 * and the records derived from the caller's arguments (the workspace config,
 * the secret's data, the namespace labels and the info document).
 */
module Identity {
  import opened Wrappers
  import opened Text

  const LowercaseLetters := "abcdefghijklmnopqrstuvwxyz"
  const UppercaseLetters := "ABCDEFGHIJKLMNOPQRSTUVWXYZ"
  const Digits := "0123456789"

  /** Python's `string.ascii_lowercase + string.digits`. */
  const SubdomainAlphabet := LowercaseLetters + Digits
  /** Python's `string.ascii_letters + string.digits`. */
  const PasswordAlphabet := LowercaseLetters + UppercaseLetters + Digits

  const SubdomainLength := 8
  const PasswordLength := 12

  const NamespacePrefix := "workspace-"
  const DefaultBranch := "main"
  const GitHubPrefix := "https://github.com/"

  /** Every character of `s` is drawn from `alphabet`. */
  predicate Over(s: string, alphabet: string) {
    forall i :: 0 <= i < |s| ==> s[i] in alphabet
  }

  predicate IsSubdomain(s: string) {
    |s| == SubdomainLength && Over(s, SubdomainAlphabet)
  }

  predicate IsPassword(s: string) {
    |s| == PasswordLength && Over(s, PasswordAlphabet)
  }

  /**
   * `length` independent draws from `alphabet`, joined. The random choice of
   * each character is a nondeterministic choice: nothing about it is known
   * except that it comes from the alphabet.
   */
  method RandomString(length: nat, alphabet: string) returns (s: string)
    requires alphabet != []
    ensures |s| == length && Over(s, alphabet)
  {
    s := "";
    var i := 0;
    while i < length
      invariant i <= length && |s| == i
      invariant Over(s, alphabet)
    {
      assert alphabet[0] in alphabet;
      var c :| c in alphabet;
      s := s + [c];
      i := i + 1;
    }
  }

  method GenerateRandomSubdomain() returns (s: string)
    ensures IsSubdomain(s)
  {
    s := RandomString(SubdomainLength, SubdomainAlphabet);
  }

  method GenerateRandomPassword() returns (s: string)
    ensures IsPassword(s)
  {
    s := RandomString(PasswordLength, PasswordAlphabet);
  }

  /** A subdomain is one DNS label: it never holds a dot. */
  lemma SubdomainHasNoDot(s: string)
    requires IsSubdomain(s)
    ensures '.' !in s
  {
  }

  /** The namespace that isolates the workspace `workspaceId`. */
  function NamespaceName(workspaceId: string): string {
    NamespacePrefix + workspaceId
  }

  /** The workspace id a namespace belongs to, if it is a workspace namespace at all. */
  function WorkspaceIdOf(namespace: string): (id: Option<string>)
    ensures id.Some? <==> |namespace| >= |NamespacePrefix| && namespace[..|NamespacePrefix|] == NamespacePrefix
  {
    if |namespace| >= |NamespacePrefix| && namespace[..|NamespacePrefix|] == NamespacePrefix
    then Some(namespace[|NamespacePrefix|..])
    else None
  }

  /** Namespace names and workspace ids correspond one to one, in both directions. */
  lemma {:induction false} NamespaceRoundTrip(workspaceId: string, namespace: string)
    ensures WorkspaceIdOf(NamespaceName(workspaceId)) == Some(workspaceId)
    ensures WorkspaceIdOf(namespace) == Some(workspaceId) ==> NamespaceName(workspaceId) == namespace
  {
    var ns := NamespaceName(workspaceId);
    assert ns[..|NamespacePrefix|] == NamespacePrefix;
    assert ns[|NamespacePrefix|..] == workspaceId;
    if WorkspaceIdOf(namespace) == Some(workspaceId) {
      assert namespace == namespace[..|NamespacePrefix|] + namespace[|NamespacePrefix|..];
    }
  }

  function Fqdn(subdomain: string, domain: string): string {
    subdomain + "." + domain
  }

  /** The first label of a host name and the rest, split at the first dot. */
  function SplitHost(host: string): (parts: Option<(string, string)>)
    ensures parts.Some? <==> '.' in host
    ensures parts.Some? ==> '.' !in parts.value.0 && host == parts.value.0 + "." + parts.value.1
  {
    if '.' in host then
      var k := IndexOf(host, '.');
      assert host == host[..k] + "." + host[k + 1..];
      Some((host[..k], host[k + 1..]))
    else None
  }

  /** The first label of the FQDN is the subdomain and the rest is the domain: nothing is lost. */
  lemma {:induction false} FqdnRoundTrip(subdomain: string, domain: string)
    requires IsSubdomain(subdomain)
    ensures SplitHost(Fqdn(subdomain, domain)) == Some((subdomain, domain))
  {
    SubdomainHasNoDot(subdomain);
    var host := Fqdn(subdomain, domain);
    assert host[|subdomain|] == '.';
    var parts := SplitHost(host);
    var k := IndexOf(host, '.');
    assert host[..|subdomain|] == subdomain;
    assert k == |subdomain|;
    assert host[k + 1..] == domain;
  }

  /** The host the ingress's TLS section names, served by the shared wildcard certificate. */
  function WildcardHost(domain: string): string {
    "*." + domain
  }

  /**
   * A wildcard host `*.d` covers exactly the hosts whose first label is
   * non-empty and whose remainder is `d` (a wildcard stands for one label).
   */
  predicate CoveredByWildcard(host: string, wildcard: string) {
    |wildcard| >= 2 && wildcard[..2] == "*." &&
    match SplitHost(host)
    case None => false
    case Some(parts) => parts.0 != "" && parts.1 == wildcard[2..]
  }

  /** The workspace's FQDN is always served by the wildcard certificate copied into its namespace. */
  lemma FqdnUnderWildcard(subdomain: string, domain: string)
    requires IsSubdomain(subdomain)
    ensures CoveredByWildcard(Fqdn(subdomain, domain), WildcardHost(domain))
  {
    FqdnRoundTrip(subdomain, domain);
  }

  /** The identifiers `initialize_workspace` derives before it creates anything. */
  datatype WorkspaceIds = WorkspaceIds(
    namespace: string,
    workspaceId: string,
    buildTimestamp: string,
    subdomain: string,
    fqdn: string,
    password: string)

  /** An empty or missing build timestamp is replaced by the current time. */
  function EffectiveTimestamp(given: string, now: string): (ts: string)
    ensures given != "" ==> ts == given
    ensures given == "" ==> ts == now
  {
    if given != "" then given else now
  }

  function MakeIds(workspaceId: string, buildTimestamp: string, subdomain: string,
                   domain: string, password: string): WorkspaceIds
  {
    WorkspaceIds(NamespaceName(workspaceId), workspaceId, buildTimestamp,
                 subdomain, Fqdn(subdomain, domain), password)
  }

  /** Identifiers as `initialize_workspace` produces them for workspace `workspaceId` under `domain`. */
  predicate WellFormedIds(ids: WorkspaceIds, workspaceId: string, domain: string) {
    IsSubdomain(ids.subdomain) && IsPassword(ids.password) &&
    ids == MakeIds(workspaceId, ids.buildTimestamp, ids.subdomain, domain, ids.password)
  }

  /** Every derived name can be traced back: namespace to id, FQDN to subdomain and domain. */
  lemma {:induction false} IdsDetermined(ids: WorkspaceIds, workspaceId: string, domain: string)
    requires WellFormedIds(ids, workspaceId, domain)
    ensures WorkspaceIdOf(ids.namespace) == Some(workspaceId)
    ensures SplitHost(ids.fqdn) == Some((ids.subdomain, domain))
    ensures CoveredByWildcard(ids.fqdn, WildcardHost(domain))
  {
    NamespaceRoundTrip(workspaceId, ids.namespace);
    FqdnRoundTrip(ids.subdomain, domain);
    FqdnUnderWildcard(ids.subdomain, domain);
  }

  /** The per-call workspace configuration (the local dictionary of `initialize_workspace`). */
  datatype WorkspaceConfig = WorkspaceConfig(
    repoName: string,
    githubUrls: seq<string>,
    githubBranches: seq<string>,
    poolName: string)

  function GitHubUrl(repoName: string): string {
    GitHubPrefix + repoName
  }

  /**
   * The configuration built from the caller's arguments. An empty branch name
   * (Python's `None` or `""`) falls back to the default branch, so there is
   * always exactly one branch and it is never empty.
   */
  function MakeConfig(repoName: string, branchName: string, poolName: string): (c: WorkspaceConfig)
    ensures c.repoName == repoName && c.poolName == poolName
    ensures c.githubUrls == [GitHubUrl(repoName)]
    ensures |c.githubBranches| == 1 && c.githubBranches[0] != ""
    ensures branchName != "" ==> c.githubBranches[0] == branchName
    ensures branchName == "" ==> c.githubBranches[0] == DefaultBranch
  {
    WorkspaceConfig(repoName, [GitHubUrl(repoName)],
                    if branchName != "" then [branchName] else [DefaultBranch],
                    poolName)
  }

  /** The repository name is recoverable from its URL. */
  lemma {:induction false} GitHubUrlRoundTrip(repoName: string)
    ensures GitHubUrl(repoName)[|GitHubPrefix|..] == repoName
    ensures GitHubUrl(repoName)[..|GitHubPrefix|] == GitHubPrefix
  {
  }

  /**
   * The data of `workspace-secret`: the password always, the GitHub token only
   * when one was given.
   */
  function SecretData(password: string, githubPat: string): (data: map<string, string>)
    ensures "password" in data && data["password"] == password
    ensures "github_token" in data <==> githubPat != ""
    ensures "github_token" in data ==> data["github_token"] == githubPat
    ensures data.Keys <= {"password", "github_token"}
  {
    if githubPat != "" then map["password" := password, "github_token" := githubPat]
    else map["password" := password]
  }

  /** The labels of the workspace namespace. */
  function NamespaceLabels(ids: WorkspaceIds, forPool: bool): (labels: map<string, string>)
    ensures labels.Keys == {"workspace-id", "app", "initialization", "fqdn", "type"}
    ensures labels["workspace-id"] == ids.workspaceId && labels["fqdn"] == ids.fqdn
    ensures labels["app"] == "workspace"
    ensures labels["initialization"] == "in-progress"
    ensures labels["type"] == "pool" <==> forPool
    ensures labels["type"] == "workspace" <==> !forPool
  {
    map["workspace-id" := ids.workspaceId,
        "app" := "workspace",
        "initialization" := "in-progress",
        "fqdn" := ids.fqdn,
        "type" := if forPool then "pool" else "workspace"]
  }

  /** The document stored in the `workspace-info` config map (before JSON encoding). */
  datatype WorkspaceInfo = WorkspaceInfo(
    id: string,
    repositories: seq<string>,
    branches: seq<string>,
    subdomain: string,
    fqdn: string,
    url: string,
    created: string,
    poolName: string,
    password: string)

  /** `created` is the wall clock when the document is built, a parameter here. */
  function Info(ids: WorkspaceIds, config: WorkspaceConfig, created: string): WorkspaceInfo {
    WorkspaceInfo(ids.workspaceId, config.githubUrls, config.githubBranches, ids.subdomain,
                  ids.fqdn, "https://" + ids.fqdn, created, config.poolName, ids.password)
  }

  /**
   * The info document agrees with the identity and configuration it was built
   * from: one repository URL naming the repository, one non-empty branch, and
   * a URL whose host is the workspace's FQDN under the workspace domain.
   */
  lemma {:induction false} InfoConsistent(workspaceId: string, domain: string, ids: WorkspaceIds,
                                          repoName: string, branchName: string, poolName: string, created: string)
    requires WellFormedIds(ids, workspaceId, domain)
    ensures var info := Info(ids, MakeConfig(repoName, branchName, poolName), created);
      && info.id == workspaceId
      && |info.repositories| == 1 && info.repositories[0][|GitHubPrefix|..] == repoName
      && |info.branches| == 1 && info.branches[0] != ""
      && info.url[..8] == "https://"
      && SplitHost(info.url[8..]) == Some((ids.subdomain, domain))
      && info.password == ids.password
  {
    var info := Info(ids, MakeConfig(repoName, branchName, poolName), created);
    GitHubUrlRoundTrip(repoName);
    assert info.url[8..] == ids.fqdn;
    FqdnRoundTrip(ids.subdomain, domain);
  }
}
