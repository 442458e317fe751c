# Workspace initializer, modelled in Dafny

This project models the `WorkspaceInitializer` service of the workspace controller
(`kubernetes/workspace_controller/services/workspace_initializer.py`). The service
provisions one cloud development workspace on a Kubernetes cluster and tears a failed
one down again. A workspace consists of:

- one namespace with its labels;
- two persistent volume claims;
- a secret holding the password and the GitHub token;
- three configuration maps: `init.sh`, the feature installer and the info document;
- copies of two shared objects from `workspace-system`;
- registry credentials and a service account;
- a deployment with three init containers and two containers;
- a service and an ingress.

## What the model covers

- **Identity** (`identity.dfy`). It covers the random subdomain and password, the namespace and the FQDN, and the configuration built from the caller's arguments. It also covers the secret's data, the namespace labels and the info document. Random draws are nondeterministic choices from the source's alphabets.
- **Images** (`images.dfy`). This is the two-stage image build:
  - the destinations pushed by the base and wrapper kaniko builders;
  - the `BASE_IMAGE` hand-over between the two builders;
  - the code-server container that runs the wrapper image;
  - the wrapper Dockerfile written by the heredoc.
- **DevContainer compiler** (`devcontainer.dfy`). This is the shell script built by `_create_wrapper_dockerfile_script`. It is modelled as the ordered file writes (`>` truncates, `>>` appends) it makes on the workspace volume, and covers the fallback clone command and the directory the script leaves the shell in.
- **init.sh assembly** (`initscript.dfy`). It covers the order of the fragments and the directory the wrapper heredoc writes into.
- **Feature installer** (`features.dfy`). This is the script returned by `_create_feature_installation_script`. It includes:
  - `feature_exists`;
  - the `grep -o`-pipeline lookup `get_feature_option`, as it behaves on the lines of the features document;
  - the choice of blocks, in script order;
  - what each block installs, with its defaults;
  - the outcome of the script as shipped, and of the script with its escapes intact.
- **Installer text** (`installertext.dfy`). This is the same script as text: Python's decoding of its string literal, and a reader of bash's quotes. Every line of the literal that holds a quote or a backslash is written out piece by piece. The other lines are parameters.
- **Cluster** (`platform.dfy`). The Kubernetes API is modelled as a `Cluster` class: a map of objects, plus oracles saying which calls the server refuses and what successive namespace reads answer.
- **Provisioning** (`provisioning.dfy`). `initialize_workspace` is a fixed list of fourteen creation steps. They run in order until the first step that raises. The two copy steps catch their own errors.
- **Teardown** (`teardown.dfy`). `_cleanup_failed_workspace` consists of four best-effort collection deletions, the namespace deletion, and a wait of at most thirty successful polls.
- **Service object** (`initializer.dfy`). The class `WorkspaceInitializer` holds imperative methods for the helpers, for `initialize_workspace` and for `_cleanup_failed_workspace`. Each method is proved against the functions of the modules above.

### Where the design documentation and the code disagree (the model follows the code)

- **Teardown on failure.** The documentation says a failed stage triggers teardown. `initialize_workspace` only returns `False` (lines 132-137) and never calls `_cleanup_failed_workspace`. `Provisioning.ProvisionAborts` states what a failure leaves behind: a `False` result, no object from any later step, and, when every earlier creating step met a free target, those earlier objects with their contents. Nothing is torn down.
- **The "ready" label.** The documentation says success moves the namespace's lifecycle label to "ready". The code sets `initialization: in-progress` (line 147) and never changes it.
- **Options of a pretty-printed features file.** The documentation's end-to-end example expects Node version "18" to be installed. The compiler writes the features with `jq -r` (lines 1172-1175), which pretty-prints them over several lines. `get_feature_option` only finds options on the feature's own line. So once the missing return (lines 1081-1225), the missing mount (lines 727-768) and the quoting of line 804 are fixed, the example installs the LTS release, because the version is never read (see Findings). As written, the service installs nothing for it.
- **Teardown of a workspace already torn down.** The documentation says this completes quietly. In the code `delete_namespace` raises, and the outer handler logs an error (`Teardown.DeleteFailureSkipsWait`).
- **Rerunning the compiler.** The documentation says compiling the same descriptor twice yields identical artifacts. When the descriptor sets `containerUser` but not `remoteUser`, `.user-config` is only appended to (`>>`), so every rerun grows it (`DevContainer.RerunGrows`). `DevContainer.RerunUnchangedIff` states exactly when a rerun leaves the files as they were.
- **The poll wait.** It ends only on a 404, on thirty successful reads, or on an exception that is not an `ApiException`. Any other `ApiException` is caught and neither ends the wait nor counts as a retry (`Teardown.OtherApiErrorsNeverEnd`).

## Model

| member | source | states |
|---|---|---|
| Identity.RandomString | kubernetes/workspace_controller/services/workspace_initializer.py:29-32 | the string has the requested length and every character comes from the alphabet |
| Identity.GenerateRandomSubdomain | kubernetes/workspace_controller/services/workspace_initializer.py:29-32 | eight characters from lowercase letters and digits |
| Identity.GenerateRandomPassword | kubernetes/workspace_controller/services/workspace_initializer.py:527-532 | twelve characters from letters and digits |
| Identity.SubdomainHasNoDot | kubernetes/workspace_controller/services/workspace_initializer.py:29-32 | a generated subdomain is one DNS label: it holds no dot |
| Identity.WorkspaceIdOf | kubernetes/workspace_controller/services/workspace_initializer.py:49 | a namespace yields a workspace id exactly when it starts with `workspace-` |
| Identity.NamespaceRoundTrip | kubernetes/workspace_controller/services/workspace_initializer.py:49 | `workspace-<id>` gives back `<id>`, and a namespace that yields `<id>` is `workspace-<id>` |
| Identity.SplitHost | kubernetes/workspace_controller/services/workspace_initializer.py:50 | a host splits at its first dot exactly when it holds one, into a dot-free label and the rest |
| Identity.FqdnRoundTrip | kubernetes/workspace_controller/services/workspace_initializer.py:50 | the FQDN's first label is the subdomain and the rest is the workspace domain |
| Identity.FqdnUnderWildcard | kubernetes/workspace_controller/services/workspace_initializer.py:435-439 | the FQDN is covered by the `*.<domain>` host of the wildcard certificate |
| Identity.IdsDetermined | kubernetes/workspace_controller/services/workspace_initializer.py:47-62 | the derived identifiers lead back to the workspace id, the subdomain and the domain, and the FQDN is under the wildcard |
| Identity.MakeConfig | kubernetes/workspace_controller/services/workspace_initializer.py:65-70 | one GitHub URL for the repository and exactly one non-empty branch: the caller's, or `main` when none is given |
| Identity.GitHubUrlRoundTrip | kubernetes/workspace_controller/services/workspace_initializer.py:67 | the repository name is recovered from its URL |
| Identity.SecretData | kubernetes/workspace_controller/services/workspace_initializer.py:192-209 | the secret always holds the password, holds `github_token` exactly when a token was given, and holds nothing else |
| Identity.NamespaceLabels | kubernetes/workspace_controller/services/workspace_initializer.py:139-153 | exactly the five labels, with `type` "pool" exactly for pool workspaces and "workspace" otherwise |
| Identity.InfoConsistent | kubernetes/workspace_controller/services/workspace_initializer.py:251-274 | the info document names the workspace, one repository URL, one non-empty branch, and a URL whose host is the FQDN |
| Images.ImageRefRoundTrip | kubernetes/workspace_controller/services/workspace_initializer.py:584-645 | a destination gives back its role, namespace and timestamp when the timestamp holds no dash |
| Images.BaseNeverWrapper | kubernetes/workspace_controller/services/workspace_initializer.py:584-645 | a base image and a wrapper image never share a reference |
| Images.InitContainerOrder | kubernetes/workspace_controller/services/workspace_initializer.py:534-541 | init containers are preparation, base build, wrapper build, the same for pools and others |
| Images.KanikoDestination | kubernetes/workspace_controller/services/workspace_initializer.py:584-613 | a builder's arguments name exactly the destination it was given |
| Images.EnvOfWrapper | kubernetes/workspace_controller/services/workspace_initializer.py:615-645 | the wrapper builder's `BASE_IMAGE` is the base image |
| Images.TagConsistency | kubernetes/workspace_controller/services/workspace_initializer.py:584-710 | the wrapper builder is told what the base builder pushes; code-server runs what the wrapper builder pushes; the two pushes differ yet encode the same namespace and timestamp |
| Images.PasswordFromSecret | kubernetes/workspace_controller/services/workspace_initializer.py:647-710 | code-server's `PASSWORD` comes from the secret's `password` key, which holds the generated password |
| Images.PodConfigMaps | kubernetes/workspace_controller/services/workspace_initializer.py:727-768 | the pod's volumes show exactly the `workspace-init` and `port-detector` ConfigMaps |
| Images.OnlyWorkspaceMountShowsInstaller | kubernetes/workspace_controller/services/workspace_initializer.py:674-693 | of the code-server mounts, only the workspace volume at `/workspaces` shows `/workspaces/install-features.sh` |
| Images.StartupRunsInstallerFirst | kubernetes/workspace_controller/services/workspace_initializer.py:1251 | the startup's first optional script is `/workspaces/install-features.sh` |
| Images.WrapperBuildsOnBase | kubernetes/workspace_controller/services/workspace_initializer.py:1227-1251 | the wrapper Dockerfile builds FROM the base builder's destination and exposes the port its startup binds |
| DevContainer.FlattenParses | kubernetes/workspace_controller/services/workspace_initializer.py:1187-1195 | the i-th line of the environment file splits at its first `=` into the i-th entry's key and value, when the key holds no `=` |
| DevContainer.CloneAlwaysPinsBranch | kubernetes/workspace_controller/services/workspace_initializer.py:1126-1141 | with the configuration the service builds, the fallback clone always passes `-b` with the caller's branch or `main` |
| DevContainer.WriteFieldsAt | kubernetes/workspace_controller/services/workspace_initializer.py:1157-1218 | per file, the field writes leave what the file-by-file reading of the script says, and touch no other file |
| DevContainer.CompileAt | kubernetes/workspace_controller/services/workspace_initializer.py:1144-1224 | the whole compiler, file by file: the Dockerfile copied or defaulted; the descriptor copied and its fields written only when both exist |
| DevContainer.CopiedFiles | kubernetes/workspace_controller/services/workspace_initializer.py:1144-1150 | the Dockerfile artifact always exists; the descriptor copy exists exactly when both files do; otherwise nothing else is written |
| DevContainer.NoDockerfileMeansDefault | kubernetes/workspace_controller/services/workspace_initializer.py:1220-1224 | without a Dockerfile the only artifact is the default `FROM linuxserver/code-server:latest` |
| DevContainer.FieldArtifact | kubernetes/workspace_controller/services/workspace_initializer.py:1157-1218 | each single-value artifact exists exactly when its query printed something, and holds that output plus a newline |
| DevContainer.UserConfigArtifact | kubernetes/workspace_controller/services/workspace_initializer.py:1197-1206 | `.user-config` holds the REMOTE_USER line, then the CONTAINER_USER line, each only when set |
| DevContainer.ExtensionsPrecedence | kubernetes/workspace_controller/services/workspace_initializer.py:1157-1164 | the editor-customization list is used exactly when the primary extension list prints nothing |
| DevContainer.EnvironmentNonEmpty | kubernetes/workspace_controller/services/workspace_initializer.py:1187-1195 | an environment artifact is written exactly when the map has an entry |
| DevContainer.CompileOverlays | kubernetes/workspace_controller/services/workspace_initializer.py:1144-1224 | except for an append-only `.user-config`, compiling over existing files overlays the fresh artifacts on them |
| DevContainer.RerunGrows | kubernetes/workspace_controller/services/workspace_initializer.py:1197-1206 | with CONTAINER_USER but no REMOTE_USER, a second run changes the files |
| DevContainer.RerunStable | kubernetes/workspace_controller/services/workspace_initializer.py:1144-1224 | in every other case, a second run changes nothing |
| DevContainer.RerunUnchangedIff | kubernetes/workspace_controller/services/workspace_initializer.py:1144-1224 | re-running the compiler is idempotent if and only if `.user-config` is not append-only |
| InitScript.InitScriptOmitsCompiler | kubernetes/workspace_controller/services/workspace_initializer.py:211-235 | as written, init.sh is the generated script then the heredoc: no compiler fragment |
| InitScript.InitScriptOrder | kubernetes/workspace_controller/services/workspace_initializer.py:211-235 | with the compiler returned, init.sh has the generated script, the compiler and the heredoc, in that order |
| InitScript.BaseBuildReadsUserDockerfile | kubernetes/workspace_controller/services/workspace_initializer.py:1144-1146 | the base builder's context holds the Dockerfile the compiler copies |
| InitScript.WrapperBuildReadsWrapperDirectory | kubernetes/workspace_controller/services/workspace_initializer.py:1086-1088 | the directory the compiler moves to first is the wrapper builder's context |
| InitScript.AsWrittenHeredocDirectory | kubernetes/workspace_controller/services/workspace_initializer.py:211-235 | as written, the heredoc writes wherever the generated script left the shell |
| InitScript.FallbackCloneMisplacesWrapper | kubernetes/workspace_controller/services/workspace_initializer.py:1126-1141 | with the compiler returned, the wrapper Dockerfile reaches the wrapper context exactly when no fallback clone was needed |
| InitScript.CorrectedHeredocInWrapperContext | kubernetes/workspace_controller/services/workspace_initializer.py:1126-1141 | with the clone confined to its step, the wrapper Dockerfile always reaches the wrapper context |
| InitScript.HeredocBuildsOnBase | kubernetes/workspace_controller/services/workspace_initializer.py:1227-1230 | the last fragment of init.sh is the heredoc, and its Dockerfile builds on the base image |
| Features.FeatureExists | kubernetes/workspace_controller/services/workspace_initializer.py:792-794 | a feature exists exactly when `"<id>"` occurs in the document |
| Features.OptionNeedsFeatureLine | kubernetes/workspace_controller/services/workspace_initializer.py:797-811 | an option on no line that also names the feature is never found: the default is returned |
| Features.MissingMeansDefault | kubernetes/workspace_controller/services/workspace_initializer.py:797-811 | a feature or option the document never names yields the default |
| Features.CompactOptionFound | kubernetes/workspace_controller/services/workspace_initializer.py:797-811 | on a one-line document the option's non-empty value is returned as written |
| Features.CompactOtherDefault | kubernetes/workspace_controller/services/workspace_initializer.py:797-811 | a name the one-line document does not quote yields the default, whether looked up as feature or as option |
| Features.PrettyPrintedOptionIgnored | kubernetes/workspace_controller/services/workspace_initializer.py:797-811 | on the pretty-printed document every option of the feature yields its default |
| Features.Resolve | kubernetes/workspace_controller/services/workspace_initializer.py:891-912 | a version means the newest release exactly when it reads `latest` |
| Features.SelectionMembers | kubernetes/workspace_controller/services/workspace_initializer.py:814-1076 | a block runs exactly when the document names one of its identifiers |
| Features.SelectionOrdered | kubernetes/workspace_controller/services/workspace_initializer.py:814-1076 | blocks run in the script's order, each at most once |
| Features.CompactSelects | kubernetes/workspace_controller/services/workspace_initializer.py:792-794 | a one-line document selects the feature it names |
| Features.ActionWhenDefaults | kubernetes/workspace_controller/services/workspace_initializer.py:814-1076 | a block whose options read as their defaults installs its default |
| Features.ActionWhenPinned | kubernetes/workspace_controller/services/workspace_initializer.py:838-1076 | a versioned block asked for a version outside its sentinels (`lts` and `latest` for Node, `latest` for the others) installs exactly that version |
| Features.NewestExactlyAtSentinels | kubernetes/workspace_controller/services/workspace_initializer.py:838-1076 | Node, Go, .NET, Terraform and kubectl install their default exactly when the version read is one of their sentinels |
| Features.JavaPassesVersionOn | kubernetes/workspace_controller/services/workspace_initializer.py:915-925 | Java has no sentinel: the version read, `latest` included, is passed to `openjdk-<version>-jdk` as it is |
| Features.PhpPassesVersionOn | kubernetes/workspace_controller/services/workspace_initializer.py:971-992 | PHP has no sentinel: the version read, `latest` included, is the PHP version installed |
| Features.DefaultActions | kubernetes/workspace_controller/services/workspace_initializer.py:838-1076 | with no options set, Node is LTS, Python has tools and no Jupyter, PHP 8.2 has Composer, Java is 17, the rest newest |
| Features.CompactVersionPinned | kubernetes/workspace_controller/services/workspace_initializer.py:838-1076 | a version set on one line is installed as written, the block's other options at their defaults |
| Features.PrettyVersionIgnored | kubernetes/workspace_controller/services/workspace_initializer.py:1172-1175 | a version set in the pretty-printed features file is never read: every versioned block installs its default |
| Features.VersionedId | kubernetes/workspace_controller/services/workspace_initializer.py:838-1076 | the identifier keying each versioned block's options is plain and differs from the option names |
| Features.KubernetesToolsVersionIgnored | kubernetes/workspace_controller/services/workspace_initializer.py:1063-1076 | `kubernetes-tools` selects the kubectl block, but its version is read under `kubectl` only, so the newest kubectl is installed |
| Features.DockerInDockerAlone | kubernetes/workspace_controller/services/workspace_initializer.py:814-835 | `docker-in-docker` selects its own block and not the plain Docker block |
| Features.InstallerRunsSelection | kubernetes/workspace_controller/services/workspace_initializer.py:778-1079 | the corrected installer completes, running exactly the selected blocks in script order |
| Features.ShippedInstallerFails | kubernetes/workspace_controller/services/workspace_initializer.py:774-1079 | once the features file exists, the shipped script, decoded by Python and read by bash, stops at a syntax error whatever the file holds; without the file it reports that and exits |
| Features.RawInstallerRuns | kubernetes/workspace_controller/services/workspace_initializer.py:774-1079 | read as it stands, the same text closes its quotes and runs as the installer with its escapes intact |
| Features.InstallerAsWrittenInstallsNothing | kubernetes/workspace_controller/services/workspace_initializer.py:797-811 | for a one-line Node request the shipped script stops at a syntax error; the corrected one installs the release |
| Features.PrettyNodeVersionIgnored | kubernetes/workspace_controller/services/workspace_initializer.py:838-857 | Node 18 in the pretty-printed document installs the LTS release |
| Features.CompactNodeVersionRead | kubernetes/workspace_controller/services/workspace_initializer.py:838-857 | Node 18 on one line installs Node 18 |
| InstallerText.ReadRenderFrom | kubernetes/workspace_controller/services/workspace_initializer.py:774-1079 | reading a well-formed line character by character leaves bash's reader where reading it piece by piece does |
| InstallerText.DecodeRenderFrom | kubernetes/workspace_controller/services/workspace_initializer.py:774-1079 | Python's decoding of a well-formed line is the line with each `\"` turned into `"` and each `\.` kept as it stands |
| InstallerText.DecodedLiteral | kubernetes/workspace_controller/services/workspace_initializer.py:774-1079 | decoding the whole literal decodes each shown line and copies the lines between them |
| InstallerText.OptionLineReading | kubernetes/workspace_controller/services/workspace_initializer.py:804 | line 804 closes its quotes as written, but after decoding it ends inside a single quote |
| InstallerText.OnlyOptionLineBreaks | kubernetes/workspace_controller/services/workspace_initializer.py:778-1075 | every shown line closes its quotes as written, and after decoding exactly line 804 does not |
| InstallerText.ShippedLiteralLeavesQuoteOpen | kubernetes/workspace_controller/services/workspace_initializer.py:774-1079 | bash reads the decoded installer to its end inside a single quote |
| InstallerText.RawLiteralCloses | kubernetes/workspace_controller/services/workspace_initializer.py:774-1079 | kept as it stands, the installer ends with every quote closed whenever its other lines close theirs |
| Platform.Cluster.Create | kubernetes/workspace_controller/services/workspace_initializer.py:153 | a creation succeeds exactly when the object is new and not refused, and then adds exactly that object |
| Platform.Cluster.Read | kubernetes/workspace_controller/services/workspace_initializer.py:279-282 | a read returns the object, or nothing when it is absent |
| Platform.Cluster.DeleteCollection | kubernetes/workspace_controller/services/workspace_initializer.py:472-478 | a collection deletion removes every object of the kind in the namespace unless refused |
| Platform.Cluster.DeleteNamespace | kubernetes/workspace_controller/services/workspace_initializer.py:505 | a namespace deletion succeeds exactly when the namespace exists and is not refused, and marks it terminating |
| Platform.Cluster.ReadNamespace | kubernetes/workspace_controller/services/workspace_initializer.py:511 | each read consumes the next answer of the terminating namespace |
| Platform.Without | kubernetes/workspace_controller/services/workspace_initializer.py:472-500 | exactly the objects of other kinds or other namespaces remain, unchanged |
| Provisioning.PipelineTargetsDistinct | kubernetes/workspace_controller/services/workspace_initializer.py:76-126 | no two steps create the same object |
| Provisioning.RunStepsAdds | kubernetes/workspace_controller/services/workspace_initializer.py:76-126 | a run keeps every existing object unchanged and adds only the objects of its steps |
| Provisioning.RunStepsSucceeds | kubernetes/workspace_controller/services/workspace_initializer.py:76-126 | a run succeeds if and only if every creating step meets an absent, unrefused object |
| Provisioning.RunStepsContents | kubernetes/workspace_controller/services/workspace_initializer.py:76-126 | after a successful run each creating step's object holds that step's content |
| Provisioning.RunStepsAborts | kubernetes/workspace_controller/services/workspace_initializer.py:76-137 | after a failing creating step the run fails and no later step creates its object |
| Provisioning.ProvisionSucceeds | kubernetes/workspace_controller/services/workspace_initializer.py:34-137 | `initialize_workspace` returns true if and only if none of its creating steps meets an existing or refused object |
| Provisioning.CopiesNeverDecide | kubernetes/workspace_controller/services/workspace_initializer.py:276-317 | a missing shared object does not change the result |
| Provisioning.SourceNeverCreated | kubernetes/workspace_controller/services/workspace_initializer.py:276-317 | no creating step writes the shared object a copy reads |
| Provisioning.ProvisionIgnores | kubernetes/workspace_controller/services/workspace_initializer.py:34-137 | the result does not depend on any object that no creating step makes |
| Provisioning.RunStepsPrefixContents | kubernetes/workspace_controller/services/workspace_initializer.py:76-126 | when the creating steps before the k-th met free targets, each of their objects holds its step's content |
| Provisioning.ProvisionAborts | kubernetes/workspace_controller/services/workspace_initializer.py:76-137 | a failing creating step makes the run fail; no later step creates anything; earlier steps that met free targets leave their objects with their contents |
| Provisioning.ProvisionContents | kubernetes/workspace_controller/services/workspace_initializer.py:139-466 | after success every created object exists with the content its helper builds |
| Provisioning.ObjectsWired | kubernetes/workspace_controller/services/workspace_initializer.py:356-466 | deployment, service account, credentials, service, certificate and ingress refer to each other, and the ingress host is the FQDN label |
| Provisioning.DeploymentWired | kubernetes/workspace_controller/services/workspace_initializer.py:383-391 | the deployment runs as the created service account and pulls with the created registry credentials |
| Provisioning.ServiceMissesCodeServer | kubernetes/workspace_controller/services/workspace_initializer.py:400-419 | the wrapper image listens on 8444 only, and the service forwards to a port it does not listen on |
| Provisioning.CorrectedServiceReachesCodeServer | kubernetes/workspace_controller/services/workspace_initializer.py:421-466 | a service forwarding 8443 to 8444 still serves the ingress's backend port and reaches the port the wrapper image listens on |
| Provisioning.FeatureInstallNeverMounted | kubernetes/workspace_controller/services/workspace_initializer.py:727-768 | the `feature-install` ConfigMap is created, but no volume of the pod shows it; the init script's and the port detector's ConfigMaps are mounted; the startup's first script lies on the workspace volume |
| Provisioning.CorrectedVolumesMountInstaller | kubernetes/workspace_controller/services/workspace_initializer.py:236-249 | with a `feature-install` volume and a mount of its `install-features.sh` key at the startup's path, the created installer is the file the startup runs |
| Provisioning.IngressWired | kubernetes/workspace_controller/services/workspace_initializer.py:421-466 | the ingress serves the FQDN with the copied certificate and forwards to the service's port |
| Teardown.SweepEffect | kubernetes/workspace_controller/services/workspace_initializer.py:470-502 | each accepted deletion removes its kind from the namespace, nothing else changes, and a kind is warned about exactly when its deletion failed |
| Teardown.SweepKeepsNamespace | kubernetes/workspace_controller/services/workspace_initializer.py:470-505 | the sweep leaves the namespace object itself in place |
| Teardown.PollBounds | kubernetes/workspace_controller/services/workspace_initializer.py:508-516 | the wait makes at most thirty successful polls and times out exactly when it made thirty; "gone" follows a 404 |
| Teardown.OtherApiErrorsNeverEnd | kubernetes/workspace_controller/services/workspace_initializer.py:508-516 | API errors other than 404 never end the wait |
| Teardown.PresentOnlyTimesOut | kubernetes/workspace_controller/services/workspace_initializer.py:508-521 | thirty successful reads in a row time the wait out after exactly thirty reads |
| Teardown.DeleteFailureSkipsWait | kubernetes/workspace_controller/services/workspace_initializer.py:505-525 | when `delete_namespace` raises, the cleanup fails quietly, polls nothing and deletes no namespace |
| Teardown.CleanedMeansGone | kubernetes/workspace_controller/services/workspace_initializer.py:505-521 | success is reported only after the namespace was deleted and a read returned 404; timeout exactly after thirty successful polls |
| Initializer.WorkspaceInitializer.constructor | kubernetes/workspace_controller/services/workspace_initializer.py:23-27 | the service keeps its cluster, workspace domain and AWS account |
| Initializer.WorkspaceInitializer.CreateObject | kubernetes/workspace_controller/services/workspace_initializer.py:139-466 | each creating helper leaves exactly the objects and the result of its one step: the object added when it was new and not refused, nothing changed otherwise |
| Initializer.WorkspaceInitializer.CopySharedObject | kubernetes/workspace_controller/services/workspace_initializer.py:276-317 | each copy helper leaves exactly the objects of its step (the copy made only when the shared object exists and the target is free) and never raises |
| Initializer.WorkspaceInitializer.CreateNamespaceFirst | kubernetes/workspace_controller/services/workspace_initializer.py:76 | leaves exactly the objects and the result of running the namespace step alone, stopping at the first failure, and the rest of the pipeline goes on from there |
| Initializer.WorkspaceInitializer.CreateVolumes | kubernetes/workspace_controller/services/workspace_initializer.py:79-80 | leaves exactly the objects and the result of running the two claim steps alone, stopping at the first failure, and the rest of the pipeline goes on from there |
| Initializer.WorkspaceInitializer.CreateSecretAndInitScript | kubernetes/workspace_controller/services/workspace_initializer.py:83-84 | leaves exactly the objects and the result of running the secret and init-script steps alone, stopping at the first failure, and the rest of the pipeline goes on from there |
| Initializer.WorkspaceInitializer.CreateFeatureAndInfoConfigMaps | kubernetes/workspace_controller/services/workspace_initializer.py:85-86 | leaves exactly the objects and the result of running the feature-install and info steps alone, stopping at the first failure, and the rest of the pipeline goes on from there |
| Initializer.WorkspaceInitializer.CopySharedResources | kubernetes/workspace_controller/services/workspace_initializer.py:89-96 | leaves exactly the objects of running the two copy steps, which never stop the run, and the rest of the pipeline goes on from there |
| Initializer.WorkspaceInitializer.CreateIdentityResources | kubernetes/workspace_controller/services/workspace_initializer.py:97-106 | leaves exactly the objects and the result of running the registry-credentials and service-account steps alone, stopping at the first failure, and the rest of the pipeline goes on from there |
| Initializer.WorkspaceInitializer.CreateWorkload | kubernetes/workspace_controller/services/workspace_initializer.py:107-126 | leaves exactly the objects and the result of running the deployment, service and ingress steps alone, stopping at the first failure, and the rest of the pipeline goes on from there |
| Initializer.WorkspaceInitializer.InitializeWorkspace | kubernetes/workspace_controller/services/workspace_initializer.py:34-137 | derives well-formed identifiers and the configuration, and leaves the cluster and the result that `Provision` specifies |
| Initializer.WorkspaceInitializer.SweepNamespace | kubernetes/workspace_controller/services/workspace_initializer.py:470-502 | the four deletions leave the objects and warnings of `Sweep` |
| Initializer.WorkspaceInitializer.DeleteSweptCollection | kubernetes/workspace_controller/services/workspace_initializer.py:472-502 | one best-effort deletion: exactly its kind removed from the namespace and no warning, or, when refused, nothing changed and its kind returned as the warning; the sweep goes on |
| Initializer.WorkspaceInitializer.CleanupFailedWorkspace | kubernetes/workspace_controller/services/workspace_initializer.py:468-525 | the result, warnings, objects, terminating namespaces and consumed reads are those of `Cleanup` |

## Left out

- Object schemas are reduced to the fields the service decides. Security contexts, resource requests, annotations and image pull policy are not modelled. The pod's volumes (lines 727-768) and the code-server container's mounts are modelled as lists beside the Deployment object, not as fields of it. The other containers' mounts are modelled only as their build contexts.
- Provisioning.ProvisionContents: the `feature-install` ConfigMap is the content `FeatureInstallMap`, without its script. The script it stores (lines 240-249) is modelled as text in `InstallerText` and run in `Features`. Its unshown lines are parameters there, so the content cannot be written out here.
- Randomness and the clock are not modelled directly. The random characters are nondeterministic choices from the source's alphabets. `datetime.now()` enters as the parameters `now` and `created`.
- `generate_init_script` is not part of this model. Its output is the opaque parameter `generated`.
- The tools the installer blocks install, the shell text of each block, and the network calls of the installers are left out. Each block is modelled by what it decides to install: tool, version and flags.
- jq's evaluation of `devcontainer.json` is abstracted into the `Descriptor` record of what each query prints.
- The shell text of the compiler and of the wrapper Dockerfile is modelled as file writes and instructions, not as text.
- Features.FeatureExists: this and `Features.DockerInDockerAlone` read line 793 with its escapes intact, as a test for the quoted id `"<id>"`. Python decodes that line to `grep -q ""$1""`, which tests the bare id, so in the shipped text `docker` would also match `docker-in-docker`. That cannot be seen as shipped, because bash fails to parse line 804 before any test runs. The corrected installer is the literal as it stands (raw), which restores the quotes of line 793 along with those of line 804.
- InstallerText.ShippedLiteralLeavesQuoteOpen: the lines of the installer that hold no quote and no backslash are parameters (`gaps`, `tail`, also of `Features.ShippedInstallerFails` and `Features.RawInstallerRuns`), rather than written out. For the shipped text they are constrained to hold none of those characters (past line 804 only no single quote and no backslash); for the text as it stands, to close their own quotes. The quote reader treats command substitutions and comments as plain text. On the shown lines before line 804 this changes nothing, because each `$(…)` and comment there holds balanced quotes. On the decoded line 804 a single quote opens inside `$(…)`. After it, the reader meets no unquoted `)` or `#` until the end: the only stretches outside quotes come on lines 853, 854, 905, 906, 931, 934, 962 and 1075, and none holds either character.
- Features.RawInstallerRuns: a text whose quotes all close is taken to parse. The rest of bash's syntax is not checked.
- Features.Installer: the script runs under `set -e` (line 776). The model assumes every install command succeeds, so a failing install, which would stop the script, is not modelled.
- Namespace deletion is modelled as marking the namespace terminating. Kubernetes's cascading deletion of the objects inside it is not modelled. The successive answers of namespace reads are an oracle of the cluster, independent of the `terminating` set.
- Logging and `time.sleep` are left out. They change nothing but the log and the timing.
- Initializer.WorkspaceInitializer.CleanupFailedWorkspace: requires that the poll wait ends within the answers the cluster will give. A cluster that keeps answering non-404 API errors makes the source loop forever (`Teardown.OtherApiErrorsNeverEnd`), and a method must terminate.
- InitScript.WrapperDockerfileScript: requires at least one GitHub URL, because the source indexes `github_urls[0]`. `initialize_workspace` always builds exactly one.
- Initializer.WorkspaceInitializer.CreateVolumes: this method and the other phase methods group the steps in twos and threes for the proof. The source calls the helpers one after the other with no grouping.

## Findings

| source | as written | input that shows it | evidently intended | confidence | as-written member | corrected member |
|---|---|---|---|---|---|---|
| kubernetes/workspace_controller/services/workspace_initializer.py:1081-1225 | `_create_wrapper_dockerfile_script` builds the compiler script but has no `return`, so it returns `None` and `if wrapper_script:` (line 219) skips it | any workspace: init.sh never holds the compiler, so the user's Dockerfile is never copied into the base context | return the script so init.sh runs it before the heredoc | high, not executed | InitScript.InitScriptOmitsCompiler | InitScript.InitScriptOrder |
| kubernetes/workspace_controller/services/workspace_initializer.py:1172-1175 | the features are written with `jq -r '.features'`, which pretty-prints one key per line; `get_feature_option` (797-811) only looks on the feature's own line | `{"node": {"version": "18"}}`: the `"version"` line never names `"node"`, so once 1081-1225, 727-768 and 804 are fixed, LTS is installed; as written, nothing is installed | write the features on one line (`jq -c`), where the version is read | high, not executed | Features.PrettyNodeVersionIgnored | Features.CompactNodeVersionRead |
| kubernetes/workspace_controller/services/workspace_initializer.py:804 | the installer is a non-raw Python string, so each `\"` of the `grep -o` pipeline loses its backslash and a single quote stays open to the end of the script | any features file, e.g. `{"node":{"version":"18"}}`: bash stops at a syntax error before any block runs | keep the escapes (a raw string), so every selected block runs | high, not executed | Features.ShippedInstallerFails | Features.RawInstallerRuns |
| kubernetes/workspace_controller/services/workspace_initializer.py:1126-1141 | the fallback clone runs `cd /workspaces` and never moves back, so the following heredoc writes its Dockerfile into `/workspaces` | a repository not yet cloned, once the missing return is fixed: the wrapper build context has no Dockerfile | confine the clone (`cd -` or a subshell) so the heredoc writes into the wrapper context | medium, not executed | InitScript.FallbackCloneMisplacesWrapper | InitScript.CorrectedHeredocInWrapperContext |
| kubernetes/workspace_controller/services/workspace_initializer.py:407-414 | the service forwards to `target_port=8443`, but the wrapper image (1249-1251) starts `code-server` on 8444 and the `code-server` container declares no port | any workspace: traffic from the ingress reaches port 8443 of the pod, where nothing in the modelled image listens | forward the service to 8444 | low, not executed (a `port-detector.sh` container is not part of this model and may listen on 8443) | Provisioning.ServiceMissesCodeServer | Provisioning.CorrectedServiceReachesCodeServer |
| kubernetes/workspace_controller/services/workspace_initializer.py:727-768 | the `feature-install` ConfigMap (236-249) is created, but no pod volume shows it; the startup (1251) runs `/workspaces/install-features.sh` only if that file exists, and `/workspaces` is the workspace claim | any workspace: the stored installer is never mounted where the startup looks for it | mount the ConfigMap's `install-features.sh` key at `/workspaces/install-features.sh` | plausible, not executed (`generate_init_script` is not part of this model and might write the file) | Provisioning.FeatureInstallNeverMounted | Provisioning.CorrectedVolumesMountInstaller |
