/**
 * The two-stage image build: the destination tags of the base and wrapper
 * images, the three init containers that build them, the code-server
 * container that runs the wrapper image, and the wrapper Dockerfile whose
 * FROM line names the base image.
 */
module Images {
  import opened Wrappers
  import opened Text
  import opened Identity

  const RegistrySuffix := ".dkr.ecr.us-east-1.amazonaws.com/workspace-images"
  const KanikoExecutor := "gcr.io/kaniko-project/executor:latest"
  const InitImage := "buildpack-deps:22.04-scm"
  const DestinationFlag := "--destination="

  /** Build directories on the workspace volume, mounted at /workspace in each builder. */
  const BaseContextSubPath := "workspaces/.user-dockerfile"
  const WrapperContextSubPath := "workspaces/.code-server-wrapper"

  /** The port the wrapper image's `code-server` binds and exposes. */
  const CodeServerPort := 8444

  datatype Role = Base | Wrapper

  function RoleTag(role: Role): string {
    match role
    case Base => "custom-user-"
    case Wrapper => "custom-wrapper-"
  }

  /** The ECR repository of the AWS account. */
  function Repository(account: string): string {
    account + RegistrySuffix
  }

  /** The destination of a build: repository, role, namespace and build timestamp. */
  function ImageRef(account: string, role: Role, namespace: string, timestamp: string): string {
    Repository(account) + ":" + RoleTag(role) + namespace + "-" + timestamp
  }

  function BaseImage(account: string, ids: WorkspaceIds): string {
    ImageRef(account, Base, ids.namespace, ids.buildTimestamp)
  }

  function WrapperImage(account: string, ids: WorkspaceIds): string {
    ImageRef(account, Wrapper, ids.namespace, ids.buildTimestamp)
  }

  function StripPrefix(s: string, prefix: string): Option<string> {
    if |prefix| <= |s| && s[..|prefix|] == prefix then Some(s[|prefix|..]) else None
  }

  /** A build tag's namespace and timestamp, split at the last dash. */
  function SplitLastDash(rest: string): Option<(string, string)> {
    if '-' in rest then
      var k := LastIndexOf(rest, '-');
      Some((rest[..k], rest[k + 1..]))
    else None
  }

  /** The role and the remainder of a build tag. */
  function ParseRole(tag: string): Option<(Role, string)> {
    match StripPrefix(tag, RoleTag(Base))
    case Some(rest) => Some((Base, rest))
    case None =>
      match StripPrefix(tag, RoleTag(Wrapper))
      case Some(rest) => Some((Wrapper, rest))
      case None => None
  }

  /**
   * Reads role, namespace and timestamp back out of a destination of
   * `account`'s repository; the timestamp is what follows the last dash.
   */
  function ParseImageRef(account: string, ref: string): Option<(Role, string, string)> {
    match StripPrefix(ref, Repository(account) + ":")
    case None => None
    case Some(tag) =>
      match ParseRole(tag)
      case None => None
      case Some(roleRest) =>
        match SplitLastDash(roleRest.1)
        case None => None
        case Some(parts) => Some((roleRest.0, parts.0, parts.1))
  }

  lemma {:induction false} SplitAtLastDash(namespace: string, timestamp: string)
    requires '-' !in timestamp
    ensures var rest := namespace + "-" + timestamp;
      '-' in rest && LastIndexOf(rest, '-') == |namespace| &&
      rest[..|namespace|] == namespace && rest[|namespace| + 1..] == timestamp
  {
    var rest := namespace + "-" + timestamp;
    assert rest[|namespace|] == '-';
    assert rest[|namespace| + 1..] == timestamp;
  }

  lemma StripPrefixConcat(prefix: string, rest: string)
    ensures StripPrefix(prefix + rest, prefix) == Some(rest)
  {
    assert (prefix + rest)[..|prefix|] == prefix;
  }

  lemma {:induction false} ParseRoleTag(role: Role, rest: string)
    ensures ParseRole(RoleTag(role) + rest) == Some((role, rest))
  {
    var tag := RoleTag(role) + rest;
    StripPrefixConcat(RoleTag(role), rest);
    if role == Wrapper {
      assert tag[7] == 'w';
      assert StripPrefix(tag, RoleTag(Base)) == None;
    }
  }

  /**
   * A destination determines its role, namespace and timestamp, as long as
   * the timestamp holds no dash (the default `%Y%m%d%H%M%S` timestamp never does).
   */
  lemma {:induction false} ImageRefRoundTrip(account: string, role: Role, namespace: string, timestamp: string)
    requires '-' !in timestamp
    ensures ParseImageRef(account, ImageRef(account, role, namespace, timestamp)) == Some((role, namespace, timestamp))
  {
    var head := Repository(account) + ":";
    var rest := namespace + "-" + timestamp;
    var tag := RoleTag(role) + rest;
    assert ImageRef(account, role, namespace, timestamp) == head + tag;
    StripPrefixConcat(head, tag);
    ParseRoleTag(role, rest);
    SplitAtLastDash(namespace, timestamp);
  }

  /** A base image and a wrapper image of the same account never share a reference. */
  lemma {:induction false} BaseNeverWrapper(account: string, ns1: string, ts1: string, ns2: string, ts2: string)
    ensures ImageRef(account, Base, ns1, ts1) != ImageRef(account, Wrapper, ns2, ts2)
  {
    var i := |Repository(account)| + 1 + 7;
    assert ImageRef(account, Base, ns1, ts1)[i] == 'u';
    assert ImageRef(account, Wrapper, ns2, ts2)[i] == 'w';
  }

  /** Where a container's environment variable takes its value from. */
  datatype EnvSource = Literal(value: string) | FromSecret(secret: string, key: string, optional: bool)

  datatype EnvVar = EnvVar(name: string, source: EnvSource)

  /**
   * The parts of a container the model keeps: its name, image, command,
   * arguments, environment, and for a builder the sub-path of the workspace
   * volume it uses as build context.
   */
  datatype Container = Container(
    name: string,
    image: string,
    command: seq<string>,
    args: seq<string>,
    env: seq<EnvVar>,
    context: Option<string>)

  function KanikoArgs(destination: string): seq<string> {
    ["--dockerfile=/workspace/Dockerfile", "--context=/workspace", DestinationFlag + destination,
     "--insecure", "--skip-tls-verify", "--verbosity=debug", "--push-retry=3",
     "--snapshotMode=time", "--use-new-run", "--cleanup"]
  }

  function KanikoEnv(): seq<EnvVar> {
    [EnvVar("DOCKER_CONFIG", Literal("/kaniko/.docker/")),
     EnvVar("HTTP_TIMEOUT", Literal("600s")),
     EnvVar("HTTPS_TIMEOUT", Literal("600s"))]
  }

  function WorkspaceInitContainer(): Container {
    Container("init-workspace", InitImage, ["/bin/bash", "/scripts/init.sh"], [],
              [EnvVar("GITHUB_TOKEN", FromSecret("workspace-secret", "github_token", true)),
               EnvVar("DOCKER_CONFIG", Literal("/kaniko/.docker/"))],
              None)
  }

  function BaseImageKanikoContainer(account: string, ids: WorkspaceIds): Container {
    Container("build-base-image", KanikoExecutor, [], KanikoArgs(BaseImage(account, ids)),
              KanikoEnv(), Some(BaseContextSubPath))
  }

  function WrapperKanikoContainer(account: string, ids: WorkspaceIds): Container {
    Container("build-wrapper-image", KanikoExecutor, [], KanikoArgs(WrapperImage(account, ids)),
              KanikoEnv() + [EnvVar("BASE_IMAGE", Literal(BaseImage(account, ids)))],
              Some(WrapperContextSubPath))
  }

  /** The init containers of the deployment; `config` and `forPool` are accepted and unused. */
  function InitContainers(account: string, ids: WorkspaceIds, config: WorkspaceConfig, forPool: bool): seq<Container> {
    [WorkspaceInitContainer(), BaseImageKanikoContainer(account, ids), WrapperKanikoContainer(account, ids)]
  }

  function CodeServerContainer(account: string, domain: string, ids: WorkspaceIds): Container {
    Container("code-server", WrapperImage(account, ids), [], [],
              [EnvVar("PUID", Literal("1000")), EnvVar("PGID", Literal("1000")), EnvVar("TZ", Literal("UTC")),
               EnvVar("DEFAULT_WORKSPACE", Literal("/workspaces")),
               EnvVar("VSCODE_EXTENSIONS", Literal("/config/extensions")),
               EnvVar("CODE_SERVER_EXTENSIONS_DIR", Literal("/config/extensions")),
               EnvVar("VSCODE_USER_DATA_DIR", Literal("/config/data")),
               EnvVar("CS_DISABLE_GETTING_STARTED_OVERRIDE", Literal("true")),
               EnvVar("VSCODE_PROXY_URI", Literal("https://" + ids.subdomain + "-{{port}}." + domain + "/")),
               EnvVar("PASSWORD", FromSecret("workspace-secret", "password", false)),
               EnvVar("DOCKER_HOST", Literal("unix:///var/run/docker.sock"))],
              None)
  }

  function PortDetectorContainer(): Container {
    Container("port-detector", "python:3.9-slim", ["/bin/bash", "/scripts/port-detector.sh"], [], [], None)
  }

  /** The destination a builder pushes to: the value of its first `--destination=` argument. */
  function Destination(args: seq<string>): Option<string> {
    if args == [] then None
    else if |DestinationFlag| <= |args[0]| && args[0][..|DestinationFlag|] == DestinationFlag
    then Some(args[0][|DestinationFlag|..])
    else Destination(args[1..])
  }

  /** The source of the first environment variable named `name`. */
  function EnvLookup(env: seq<EnvVar>, name: string): Option<EnvSource> {
    if env == [] then None
    else if env[0].name == name then Some(env[0].source)
    else EnvLookup(env[1..], name)
  }

  /** A lookup finds the first entry with the name, whatever follows it. */
  lemma {:induction false} EnvLookupAt(env: seq<EnvVar>, name: string, i: nat)
    requires i < |env| && env[i].name == name
    requires forall j :: 0 <= j < i ==> env[j].name != name
    ensures EnvLookup(env, name) == Some(env[i].source)
  {
    if i > 0 {
      EnvLookupAt(env[1..], name, i - 1);
    }
  }

  function ContainerNames(cs: seq<Container>): seq<string> {
    seq(|cs|, i requires 0 <= i < |cs| => cs[i].name)
  }

  /** Workspace preparation, then the base build, then the wrapper build, for pools and others alike. */
  lemma InitContainerOrder(account: string, ids: WorkspaceIds, config: WorkspaceConfig, forPool: bool)
    ensures ContainerNames(InitContainers(account, ids, config, forPool))
         == ["init-workspace", "build-base-image", "build-wrapper-image"]
    ensures InitContainers(account, ids, config, forPool) == InitContainers(account, ids, config, !forPool)
  {
  }

  function DestinationArg(destination: string): string {
    DestinationFlag + destination
  }

  lemma {:induction false} KanikoDestination(destination: string)
    ensures Destination(KanikoArgs(destination)) == Some(destination)
  {
    var args := KanikoArgs(destination);
    assert args[0][..|DestinationFlag|] != DestinationFlag by {
      assert args[0][..|DestinationFlag|][3] == 'o' != DestinationFlag[3];
    }
    assert args[1][..|DestinationFlag|] != DestinationFlag by {
      assert args[1][..|DestinationFlag|][2] == 'c' != DestinationFlag[2];
    }
    var arg := DestinationFlag + destination;
    assert args[1..][1..] == [arg] + args[3..];
    assert arg[..|DestinationFlag|] == DestinationFlag && arg[|DestinationFlag|..] == destination;
    assert Destination(args[1..][1..]) == Some(destination);
  }

  lemma EnvOfWrapper(account: string, ids: WorkspaceIds)
    ensures EnvLookup(WrapperKanikoContainer(account, ids).env, "BASE_IMAGE") == Some(Literal(BaseImage(account, ids)))
  {
    var env := WrapperKanikoContainer(account, ids).env;
    assert forall j :: 0 <= j < 3 ==> env[j].name != "BASE_IMAGE" by {
      assert |env[0].name| == 13 && |env[1].name| == 12 && |env[2].name| == 13;
    }
    EnvLookupAt(env, "BASE_IMAGE", 3);
  }

  /**
   * The cross-references between the two builds and the runtime: the wrapper
   * builder is told (through BASE_IMAGE) exactly what the base builder pushes,
   * the code-server container runs exactly what the wrapper builder pushes,
   * and both pushes encode the same namespace and build timestamp.
   */
  lemma {:induction false} TagConsistency(account: string, domain: string, ids: WorkspaceIds)
    ensures Destination(BaseImageKanikoContainer(account, ids).args) == Some(BaseImage(account, ids))
    ensures Destination(WrapperKanikoContainer(account, ids).args) == Some(WrapperImage(account, ids))
    ensures EnvLookup(WrapperKanikoContainer(account, ids).env, "BASE_IMAGE")
         == Some(Literal(Destination(BaseImageKanikoContainer(account, ids).args).value))
    ensures CodeServerContainer(account, domain, ids).image == Destination(WrapperKanikoContainer(account, ids).args).value
    ensures BaseImage(account, ids) != WrapperImage(account, ids)
    ensures '-' !in ids.buildTimestamp ==>
      && ParseImageRef(account, BaseImage(account, ids)) == Some((Base, ids.namespace, ids.buildTimestamp))
      && ParseImageRef(account, WrapperImage(account, ids)) == Some((Wrapper, ids.namespace, ids.buildTimestamp))
  {
    KanikoDestination(BaseImage(account, ids));
    KanikoDestination(WrapperImage(account, ids));
    EnvOfWrapper(account, ids);
    BaseNeverWrapper(account, ids.namespace, ids.buildTimestamp, ids.namespace, ids.buildTimestamp);
    if '-' !in ids.buildTimestamp {
      ImageRefRoundTrip(account, Base, ids.namespace, ids.buildTimestamp);
      ImageRefRoundTrip(account, Wrapper, ids.namespace, ids.buildTimestamp);
    }
  }

  /** The password reaches code-server from the workspace secret, never as a literal in the pod spec. */
  lemma PasswordFromSecret(account: string, domain: string, ids: WorkspaceIds, githubPat: string)
    ensures EnvLookup(CodeServerContainer(account, domain, ids).env, "PASSWORD")
         == Some(FromSecret("workspace-secret", "password", false))
    ensures SecretData(ids.password, githubPat)["password"] == ids.password
  {
    var env := CodeServerContainer(account, domain, ids).env;
    assert forall j :: 0 <= j < 9 ==> env[j].name != "PASSWORD" by {
      forall j | 0 <= j < 9 ensures |env[j].name| != 8 {
      }
    }
    EnvLookupAt(env, "PASSWORD", 9);
  }

  /** What the wrapper Dockerfile's RUN lines do; their shell text is not modelled. */
  datatype RunStep = GitSafeDirectories | AptInstall(packages: seq<string>) | CodeServerInstaller

  datatype Instruction =
    | From(image: string)
    | Run(step: RunStep)
    | Expose(port: nat)
    | Entrypoint(optionalScripts: seq<string>, bindPort: nat)

  /**
   * The Dockerfile written by the wrapper heredoc: the base image, a fixed
   * toolchain, and a startup that runs each optional script if present and
   * then starts `code-server` with password authentication.
   */
  function WrapperDockerfile(account: string, ids: WorkspaceIds): seq<Instruction> {
    [From(BaseImage(account, ids)),
     Run(GitSafeDirectories),
     Run(AptInstall(["curl", "git", "gnupg2", "jq", "procps", "lsb-release", "sudo", "tmux", "vim"])),
     Run(CodeServerInstaller),
     Expose(CodeServerPort),
     Entrypoint(["/workspaces/install-features.sh", "/workspaces/setup-env.sh",
                 "/workspaces/install-extensions.sh", "/workspaces/run-lifecycle.sh"],
                CodeServerPort)]
  }

  /** The image a Dockerfile builds on: the image of its first FROM instruction. */
  function SourceImage(dockerfile: seq<Instruction>): Option<string> {
    if dockerfile == [] then None
    else if dockerfile[0].From? then Some(dockerfile[0].image)
    else SourceImage(dockerfile[1..])
  }

  function ExposedPorts(dockerfile: seq<Instruction>): set<nat> {
    set i | 0 <= i < |dockerfile| && dockerfile[i].Expose? :: dockerfile[i].port
  }

  /**
   * The wrapper image builds on exactly the base builder's destination, and
   * the port the startup binds is the port the image exposes.
   */
  lemma {:induction false} WrapperBuildsOnBase(account: string, ids: WorkspaceIds)
    ensures SourceImage(WrapperDockerfile(account, ids)) == Destination(BaseImageKanikoContainer(account, ids).args)
    ensures var d := WrapperDockerfile(account, ids);
      forall i :: 0 <= i < |d| && d[i].Entrypoint? ==> d[i].bindPort in ExposedPorts(d)
  {
    KanikoDestination(BaseImage(account, ids));
    var d := WrapperDockerfile(account, ids);
    assert d[4].Expose?;
  }

  // ---- The pod's volumes and the code-server container's mounts ----

  /** Where a volume of the pod takes its files from. */
  datatype VolumeSource = ClaimVolume(claim: string) | ConfigMapVolume(configMap: string) | EmptyVolume

  datatype Volume = Volume(name: string, source: VolumeSource)

  /** The volume named `volume`, mounted at `path`; `subPath` is the part of it shown there, "" for all of it. */
  datatype Mount = Mount(volume: string, path: string, subPath: string)

  /** The file the startup runs first, when it exists. */
  const InstallerPath := "/workspaces/install-features.sh"
  /** The key of the `feature-install` ConfigMap that holds the installer. */
  const InstallerKey := "install-features.sh"

  /** `_create_volumes`: the seven volumes of the pod. */
  function PodVolumes(): seq<Volume> {
    [Volume("workspace-data", ClaimVolume("workspace-data")),
     Volume("registry-storage", ClaimVolume("registry-storage")),
     Volume("init-script", ConfigMapVolume("workspace-init")),
     Volume("code-server-data", EmptyVolume),
     Volume("docker-lib", EmptyVolume),
     Volume("docker-sock", EmptyVolume),
     Volume("port-detector-script", ConfigMapVolume("port-detector"))]
  }

  /** The volume mounts of the code-server container. */
  function CodeServerMounts(): seq<Mount> {
    [Mount("workspace-data", "/config", "config"),
     Mount("workspace-data", "/workspaces", "workspaces"),
     Mount("docker-lib", "/var/lib/docker", ""),
     Mount("docker-sock", "/var/run", "")]
  }

  /** The ConfigMaps whose files some volume of the pod shows; a container can mount nothing else. */
  function MountedConfigMaps(vs: seq<Volume>): set<string> {
    if vs == [] then {}
    else (if vs[0].source.ConfigMapVolume? then {vs[0].source.configMap} else {}) + MountedConfigMaps(vs[1..])
  }

  /** The source of the first volume called `name`. */
  function VolumeOf(vs: seq<Volume>, name: string): Option<VolumeSource> {
    if vs == [] then None
    else if vs[0].name == name then Some(vs[0].source)
    else VolumeOf(vs[1..], name)
  }

  /** A mount shows `path` when it is mounted at that path or at a directory above it. */
  predicate Shows(m: Mount, path: string) {
    path == m.path || (|m.path| < |path| && path[..|m.path| + 1] == m.path + "/")
  }

  /** The volumes with the `feature-install` ConfigMap added. */
  function CorrectedPodVolumes(): seq<Volume> {
    PodVolumes() + [Volume("feature-install", ConfigMapVolume("feature-install"))]
  }

  /** The code-server mounts with the installer's key mounted as the file the startup runs. */
  function CorrectedCodeServerMounts(): seq<Mount> {
    CodeServerMounts() + [Mount("feature-install", InstallerPath, InstallerKey)]
  }

  /** The pod shows exactly two ConfigMaps: the init script's and the port detector's. */
  lemma PodConfigMaps()
    ensures MountedConfigMaps(PodVolumes()) == {"workspace-init", "port-detector"}
  {
  }

  /** Of the code-server mounts, only the workspace volume's at `/workspaces` shows the installer's path. */
  lemma OnlyWorkspaceMountShowsInstaller()
    ensures forall m :: m in CodeServerMounts() && Shows(m, InstallerPath) ==> m == CodeServerMounts()[1]
    ensures CodeServerMounts()[1].path == "/workspaces" && Shows(CodeServerMounts()[1], InstallerPath)
    ensures VolumeOf(PodVolumes(), CodeServerMounts()[1].volume) == Some(ClaimVolume("workspace-data"))
  {
    var ms := CodeServerMounts();
    assert InstallerPath[..12] == ms[1].path + "/";
    NotShownAt(ms[0], InstallerPath, 1);
    NotShownAt(ms[2], InstallerPath, 1);
    NotShownAt(ms[3], InstallerPath, 1);
  }

  /** A mount whose path differs from `path` at a position both share does not show it. */
  lemma NotShownAt(m: Mount, path: string, i: nat)
    requires i < |m.path| && i < |path| && path[i] != m.path[i]
    ensures !Shows(m, path)
  {
  }

  /** The corrected pod also shows the `feature-install` ConfigMap, and mounts its installer key as the installer's path. */
  lemma CorrectedPodConfigMaps()
    ensures MountedConfigMaps(CorrectedPodVolumes()) == {"workspace-init", "port-detector", "feature-install"}
    ensures var m := CorrectedCodeServerMounts()[|CorrectedCodeServerMounts()| - 1];
      m.path == InstallerPath && m.subPath == InstallerKey &&
      VolumeOf(CorrectedPodVolumes(), m.volume) == Some(ConfigMapVolume("feature-install"))
  {
    PodConfigMaps();
    MountedAppend(PodVolumes(), [Volume("feature-install", ConfigMapVolume("feature-install"))]);
  }

  lemma {:induction false} MountedAppend(a: seq<Volume>, b: seq<Volume>)
    ensures MountedConfigMaps(a + b) == MountedConfigMaps(a) + MountedConfigMaps(b)
  {
    if a != [] {
      assert (a + b)[0] == a[0] && (a + b)[1..] == a[1..] + b;
      MountedAppend(a[1..], b);
    } else {
      assert a + b == b;
    }
  }

  /** The startup's first optional script is the installer's path. */
  lemma StartupRunsInstallerFirst(account: string, ids: WorkspaceIds)
    ensures var d := WrapperDockerfile(account, ids);
      d[|d| - 1].Entrypoint? && d[|d| - 1].optionalScripts[0] == InstallerPath
  {
  }
}
