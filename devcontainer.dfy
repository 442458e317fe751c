/**
 * The DevContainer compiler: the shell script that copies the repository's
 * `.devcontainer/Dockerfile` into the base build context and flattens the
 * fields of `.devcontainer/devcontainer.json` into one artifact file each.
 *
 * The script is modelled as the ordered list of file writes it performs
 * (`>` truncates, `>>` appends), applied one by one to the files of the
 * workspace volume. What `jq -r` prints for each queried path is part of
 * the abstract descriptor.
 */
module DevContainer {
  import opened Wrappers
  import opened Text
  import opened Identity

  /** The files the compiler writes on the workspace volume. */
  datatype File =
    | UserDockerfile | CopiedDescriptor | ExtensionsList | Settings | FeatureList | ForwardPorts
    | Customizations | ContainerEnv | RemoteEnv | UserConfigFile | PostCreateScript | PostStartScript

  function PathOf(f: File): string {
    match f
    case UserDockerfile => "/workspaces/.user-dockerfile/Dockerfile"
    case CopiedDescriptor => "/workspaces/.user-dockerfile/devcontainer.json"
    case ExtensionsList => "/workspaces/.extensions-list"
    case Settings => "/workspaces/.vscode/settings.json"
    case FeatureList => "/workspaces/.devcontainer-features"
    case ForwardPorts => "/workspaces/.forward-ports"
    case Customizations => "/workspaces/.customizations"
    case ContainerEnv => "/workspaces/.container-env"
    case RemoteEnv => "/workspaces/.remote-env"
    case UserConfigFile => "/workspaces/.user-config"
    case PostCreateScript => "/workspaces/post-create-command.sh"
    case PostStartScript => "/workspaces/post-start-command.sh"
  }

  /** The volume's files, as far as the compiler is concerned. */
  type Volume = map<File, string>

  /** The build descriptor used when the repository has none. */
  const DefaultDockerfile := "FROM linuxserver/code-server:latest"

  /** The directory the script moves to first; the wrapper heredoc writes its Dockerfile there. */
  const WrapperDirectory := "/workspaces/.code-server-wrapper"
  const WorkspacesDirectory := "/workspaces"

  /**
   * What `jq -r` prints for each path the compiler queries. A list is empty
   * when the path is absent, is not a list, or holds an empty list; an
   * `Option` is `None` when the path is absent, `null` or `false` (the
   * values jq's `//` skips). Values are already rendered as jq prints them.
   */
  datatype Descriptor = Descriptor(
    extensions: seq<string>,
    vscodeExtensions: seq<string>,
    settings: Option<string>,
    vscodeSettings: Option<string>,
    features: Option<string>,
    forwardPorts: seq<string>,
    customizations: Option<string>,
    containerEnv: seq<(string, string)>,
    remoteEnv: seq<(string, string)>,
    remoteUser: Option<string>,
    containerUser: Option<string>,
    postCreateCommand: Option<string>,
    postStartCommand: Option<string>)

  /** Every query of a document jq cannot parse prints nothing (its errors go to /dev/null). */
  const Unparsable := Descriptor([], [], None, None, None, [], None, [], [], None, None, None, None)

  /** `.devcontainer/devcontainer.json`: its text, and what jq reads from it if it parses. */
  datatype DescriptorFile = DescriptorFile(text: string, parsed: Option<Descriptor>)

  function Fields(file: DescriptorFile): Descriptor {
    file.parsed.GetOr(Unparsable)
  }

  /** `$(jq -r '<path> // empty' ...)` for a single value. */
  function ValueOutput(v: Option<string>): string {
    match v
    case None => ""
    case Some(s) => CommandOutput([s])
  }

  /** The `to_entries[] | "\(.key)=\(.value)"` flattening of an environment map. */
  function Flatten(env: seq<(string, string)>): (lines: seq<string>)
    ensures |lines| == |env|
    ensures forall i :: 0 <= i < |env| ==> lines[i] == env[i].0 + "=" + env[i].1
  {
    seq(|env|, i requires 0 <= i < |env| => env[i].0 + "=" + env[i].1)
  }

  /**
   * A flattened line cut at its first `=` gives back its entry, as a reader of
   * the environment file does, whenever the key holds no `=`.
   */
  lemma FlattenParses(env: seq<(string, string)>, i: nat)
    requires i < |env| && '=' !in env[i].0
    ensures '=' in Flatten(env)[i]
    ensures Flatten(env)[i][..IndexOf(Flatten(env)[i], '=')] == env[i].0
    ensures Flatten(env)[i][IndexOf(Flatten(env)[i], '=') + 1..] == env[i].1
  {
    var line := Flatten(env)[i];
    var key := env[i].0;
    assert line[|key|] == '=';
    assert line[..|key|] == key;
    IndexOfUnique(line, '=', |key|);
    assert line[|key| + 1..] == env[i].1;
  }

  /** EXTENSIONS: the primary list, or the editor-customization list when the primary prints nothing. */
  function Extensions(d: Descriptor): string {
    var primary := CommandOutput(d.extensions);
    if primary == "" then CommandOutput(d.vscodeExtensions) else primary
  }

  /** SETTINGS: `.settings // .customizations.vscode.settings // empty`. */
  function SettingsValue(d: Descriptor): string {
    if d.settings.Some? then ValueOutput(d.settings) else ValueOutput(d.vscodeSettings)
  }

  /** `echo "$V" > path`, guarded by `[ ! -z "$V" ]`. */
  function WriteIfSet(files: Volume, target: File, value: string): Volume {
    if value != "" then files[target := value + "\n"] else files
  }

  /** `echo ... >> path`: creates the file, or adds to its end. */
  function AppendTo(files: Volume, target: File, text: string): Volume {
    files[target := (if target in files then files[target] else "") + text]
  }

  /** What each query of the script leaves in its shell variable. */
  datatype Outputs = Outputs(
    extensions: string, settings: string, features: string, forwardPorts: string,
    customizations: string, containerEnv: string, remoteEnv: string,
    remoteUser: string, containerUser: string, postCreateCommand: string, postStartCommand: string)

  function Query(d: Descriptor): Outputs {
    Outputs(Extensions(d), SettingsValue(d), ValueOutput(d.features), CommandOutput(d.forwardPorts),
            ValueOutput(d.customizations), CommandOutput(Flatten(d.containerEnv)), CommandOutput(Flatten(d.remoteEnv)),
            ValueOutput(d.remoteUser), ValueOutput(d.containerUser),
            ValueOutput(d.postCreateCommand), ValueOutput(d.postStartCommand))
  }

  /** The writes made from the query outputs, in the order of the script. */
  function WriteFields(files: Volume, o: Outputs): Volume {
    WriteUserFields(WriteEditorFields(files, o), o)
  }

  /** Extensions, settings, features, ports and customizations. */
  function WriteEditorFields(files: Volume, o: Outputs): Volume {
    var f1 := WriteIfSet(files, ExtensionsList, o.extensions);
    var f2 := WriteIfSet(f1, Settings, o.settings);
    var f3 := WriteIfSet(f2, FeatureList, o.features);
    var f4 := WriteIfSet(f3, ForwardPorts, o.forwardPorts);
    WriteIfSet(f4, Customizations, o.customizations)
  }

  /** Environments, users and lifecycle commands. */
  function WriteUserFields(files: Volume, o: Outputs): Volume {
    var f1 := WriteIfSet(files, ContainerEnv, o.containerEnv);
    var f2 := WriteIfSet(f1, RemoteEnv, o.remoteEnv);
    var f3 := WriteUserConfig(f2, o);
    var f4 := WriteIfSet(f3, PostCreateScript, o.postCreateCommand);
    WriteIfSet(f4, PostStartScript, o.postStartCommand)
  }

  /** `echo "REMOTE_USER=..." > .user-config`, then `echo "CONTAINER_USER=..." >> .user-config`, each when set. */
  function WriteUserConfig(files: Volume, o: Outputs): Volume {
    var f1 := if o.remoteUser != "" then files[UserConfigFile := "REMOTE_USER=" + o.remoteUser + "\n"] else files;
    if o.containerUser != "" then AppendTo(f1, UserConfigFile, "CONTAINER_USER=" + o.containerUser + "\n") else f1
  }

  /**
   * The workspace volume after the compiler ran on it. `dockerfile` is the
   * repository's Dockerfile (after the fallback clone), `descriptor` its
   * devcontainer.json; the descriptor is read only when there is a Dockerfile.
   */
  function Compile(files: Volume, dockerfile: Option<string>, descriptor: Option<DescriptorFile>): Volume {
    match dockerfile
    case None => files[UserDockerfile := DefaultDockerfile + "\n"]
    case Some(text) =>
      var copied := files[UserDockerfile := text];
      match descriptor
      case None => copied
      case Some(file) => WriteFields(copied[CopiedDescriptor := file.text], Query(Fields(file)))
  }

  /** The artifacts the compiler leaves on a fresh workspace volume. */
  function Artifacts(dockerfile: Option<string>, descriptor: Option<DescriptorFile>): Volume {
    Compile(map[], dockerfile, descriptor)
  }

  /**
   * The directory the script leaves the shell in: it starts in the wrapper
   * directory, but the fallback clone (taken when the repository directory is
   * missing) moves to /workspaces and stays there.
   */
  function FinalDirectory(repositoryPresent: bool): string {
    if repositoryPresent then WrapperDirectory else WorkspacesDirectory
  }

  /**
   * The same script with the fallback clone confined to the repository
   * step (`cd -` after the clone, or the clone run in a subshell): the shell
   * ends where the script put it first.
   */
  function CorrectedFinalDirectory(repositoryPresent: bool): string {
    WrapperDirectory
  }

  /** The branch baked into the fallback clone: the first configured branch, if it is non-empty. */
  function CloneBranch(config: WorkspaceConfig): string {
    if |config.githubBranches| > 0 && config.githubBranches[0] != "" then config.githubBranches[0] else ""
  }

  /** The fallback clone command; building it indexes the first URL, which must exist. */
  function CloneCommand(config: WorkspaceConfig): seq<string>
    requires |config.githubUrls| >= 1
  {
    var branch := CloneBranch(config);
    if branch != "" then ["git", "clone", "-b", branch, config.githubUrls[0], config.repoName]
    else ["git", "clone", config.githubUrls[0], config.repoName]
  }

  /**
   * With the configuration `initialize_workspace` builds, the fallback clone
   * always names a branch (the caller's, or `main`): the unpinned form is
   * never produced.
   */
  lemma CloneAlwaysPinsBranch(repoName: string, branchName: string, poolName: string)
    ensures var cmd := CloneCommand(MakeConfig(repoName, branchName, poolName));
      |cmd| == 6 && cmd[2] == "-b" &&
      cmd[3] == (if branchName != "" then branchName else DefaultBranch) &&
      cmd[4] == GitHubUrl(repoName) && cmd[5] == repoName
  {
  }

  /** What the script echoes into each single-value artifact (every file of the descriptor but .user-config). */
  function FieldValue(o: Outputs, target: File): string
    requires SingleValue(target)
  {
    match target
    case ExtensionsList => o.extensions
    case Settings => o.settings
    case FeatureList => o.features
    case ForwardPorts => o.forwardPorts
    case Customizations => o.customizations
    case ContainerEnv => o.containerEnv
    case RemoteEnv => o.remoteEnv
    case PostCreateScript => o.postCreateCommand
    case PostStartScript => o.postStartCommand
  }

  /** The artifacts that receive one query's output each. */
  predicate SingleValue(target: File) {
    !(target.UserDockerfile? || target.CopiedDescriptor? || target.UserConfigFile?)
  }

  /** The content of .user-config on a fresh volume, if any. */
  function UserConfig(o: Outputs): string {
    (if o.remoteUser != "" then "REMOTE_USER=" + o.remoteUser + "\n" else "")
    + (if o.containerUser != "" then "CONTAINER_USER=" + o.containerUser + "\n" else "")
  }

  /** The content `WriteFields` leaves in one file, given what the file held before. */
  function FieldEffect(before: Option<string>, o: Outputs, target: File): Option<string> {
    if SingleValue(target) then
      (if FieldValue(o, target) != "" then Some(FieldValue(o, target) + "\n") else before)
    else if target == UserConfigFile then
      (if o.remoteUser != "" then Some(UserConfig(o))
       else if o.containerUser != "" then Some(before.GetOr("") + UserConfig(o))
       else before)
    else before
  }

  function Lookup(files: Volume, target: File): Option<string> {
    if target in files then Some(files[target]) else None
  }

  lemma WriteIfSetAt(files: Volume, target: File, value: string, k: File)
    ensures Lookup(WriteIfSet(files, target, value), k) ==
      if k == target && value != "" then Some(value + "\n") else Lookup(files, k)
  {
  }

  predicate EditorField(target: File) {
    target.ExtensionsList? || target.Settings? || target.FeatureList? || target.ForwardPorts? || target.Customizations?
  }

  lemma WriteEditorFieldsAt(files: Volume, o: Outputs, target: File)
    ensures Lookup(WriteEditorFields(files, o), target) ==
      if EditorField(target) then FieldEffect(Lookup(files, target), o, target) else Lookup(files, target)
  {
    var f1 := WriteIfSet(files, ExtensionsList, o.extensions);
    var f2 := WriteIfSet(f1, Settings, o.settings);
    var f3 := WriteIfSet(f2, FeatureList, o.features);
    var f4 := WriteIfSet(f3, ForwardPorts, o.forwardPorts);
    WriteIfSetAt(files, ExtensionsList, o.extensions, target);
    WriteIfSetAt(f1, Settings, o.settings, target);
    WriteIfSetAt(f2, FeatureList, o.features, target);
    WriteIfSetAt(f3, ForwardPorts, o.forwardPorts, target);
    WriteIfSetAt(f4, Customizations, o.customizations, target);
  }

  lemma WriteUserConfigAt(files: Volume, o: Outputs, target: File)
    ensures Lookup(WriteUserConfig(files, o), target) ==
      if target == UserConfigFile then FieldEffect(Lookup(files, target), o, target) else Lookup(files, target)
  {
    var f1 := if o.remoteUser != "" then files[UserConfigFile := "REMOTE_USER=" + o.remoteUser + "\n"] else files;
    if target == UserConfigFile {
      var containerLine := "CONTAINER_USER=" + o.containerUser + "\n";
      if o.remoteUser != "" {
        var line := "REMOTE_USER=" + o.remoteUser + "\n";
        assert Lookup(f1, UserConfigFile) == Some(line);
        if o.containerUser != "" {
          assert UserConfig(o) == line + containerLine;
        } else {
          assert UserConfig(o) == line;
        }
      } else if o.containerUser != "" {
        assert UserConfig(o) == containerLine;
      }
    }
  }

  lemma WriteUserFieldsAt(files: Volume, o: Outputs, target: File)
    ensures Lookup(WriteUserFields(files, o), target) ==
      if EditorField(target) then Lookup(files, target) else FieldEffect(Lookup(files, target), o, target)
  {
    var f1 := WriteIfSet(files, ContainerEnv, o.containerEnv);
    var f2 := WriteIfSet(f1, RemoteEnv, o.remoteEnv);
    var f3 := WriteUserConfig(f2, o);
    var f4 := WriteIfSet(f3, PostCreateScript, o.postCreateCommand);
    WriteIfSetAt(files, ContainerEnv, o.containerEnv, target);
    WriteIfSetAt(f1, RemoteEnv, o.remoteEnv, target);
    WriteUserConfigAt(f2, o, target);
    WriteIfSetAt(f3, PostCreateScript, o.postCreateCommand, target);
    WriteIfSetAt(f4, PostStartScript, o.postStartCommand, target);
  }

  /** `WriteFields` changes each file exactly as `FieldEffect` says, and no other. */
  lemma WriteFieldsAt(files: Volume, o: Outputs, target: File)
    ensures Lookup(WriteFields(files, o), target) == FieldEffect(Lookup(files, target), o, target)
  {
    WriteEditorFieldsAt(files, o, target);
    WriteUserFieldsAt(WriteEditorFields(files, o), o, target);
  }

  /**
   * What the compiler leaves in one file, given what the file held before:
   * the per-file reading of the script.
   */
  function CompileEffect(before: Option<string>, dockerfile: Option<string>, descriptor: Option<DescriptorFile>, target: File): Option<string> {
    if target == UserDockerfile then Some(if dockerfile.Some? then dockerfile.value else DefaultDockerfile + "\n")
    else if dockerfile.None? || descriptor.None? then before
    else if target == CopiedDescriptor then Some(descriptor.value.text)
    else FieldEffect(before, Query(Fields(descriptor.value)), target)
  }

  lemma CompileAt(files: Volume, dockerfile: Option<string>, descriptor: Option<DescriptorFile>, target: File)
    ensures Lookup(Compile(files, dockerfile, descriptor), target) ==
      CompileEffect(Lookup(files, target), dockerfile, descriptor, target)
  {
    if dockerfile.Some? && descriptor.Some? {
      CompileDescriptorAt(files, dockerfile.value, descriptor.value, target);
    }
  }

  lemma CompileDescriptorAt(files: Volume, dockerfile: string, file: DescriptorFile, target: File)
    ensures Lookup(Compile(files, Some(dockerfile), Some(file)), target) ==
      CompileEffect(Lookup(files, target), Some(dockerfile), Some(file), target)
  {
    var copied := files[UserDockerfile := dockerfile][CopiedDescriptor := file.text];
    var o := Query(Fields(file));
    WriteFieldsAt(copied, o, target);
    if target == UserDockerfile || target == CopiedDescriptor {
      assert FieldEffect(Lookup(copied, target), o, target) == Lookup(copied, target);
    } else {
      assert Lookup(copied, target) == Lookup(files, target);
    }
  }

  /** Volumes that agree on every file are equal. */
  lemma VolumeExtensionality(a: Volume, b: Volume)
    requires forall k :: Lookup(a, k) == Lookup(b, k)
    ensures a == b
  {
    forall k | k in a ensures k in b && a[k] == b[k] {
      assert Lookup(a, k) == Lookup(b, k);
    }
    forall k | k in b ensures k in a {
      assert Lookup(a, k) == Lookup(b, k);
    }
  }

  /** The files the compiler always leaves, and the only ones it leaves without a descriptor. */
  lemma CopiedFiles(dockerfile: Option<string>, descriptor: Option<DescriptorFile>)
    ensures var artifacts := Artifacts(dockerfile, descriptor);
      UserDockerfile in artifacts &&
      artifacts[UserDockerfile] == (if dockerfile.Some? then dockerfile.value else DefaultDockerfile + "\n") &&
      (CopiedDescriptor in artifacts <==> dockerfile.Some? && descriptor.Some?) &&
      (CopiedDescriptor in artifacts ==> artifacts[CopiedDescriptor] == descriptor.value.text) &&
      (dockerfile.None? || descriptor.None? ==> artifacts.Keys == {UserDockerfile})
  {
    CompileAt(map[], dockerfile, descriptor, UserDockerfile);
    CompileAt(map[], dockerfile, descriptor, CopiedDescriptor);
  }

  /** Without a Dockerfile the only artifact is the default one, whatever the descriptor says. */
  lemma NoDockerfileMeansDefault(descriptor: Option<DescriptorFile>)
    ensures Artifacts(None, descriptor) == map[UserDockerfile := DefaultDockerfile + "\n"]
  {
  }

  /**
   * With a Dockerfile and a descriptor, each single-value artifact exists
   * exactly when its query printed something, and then holds that output
   * followed by a newline.
   */
  lemma FieldArtifact(dockerfile: string, file: DescriptorFile, target: File)
    requires SingleValue(target)
    ensures var artifacts := Artifacts(Some(dockerfile), Some(file));
      var v := FieldValue(Query(Fields(file)), target);
      (target in artifacts <==> v != "") && (target in artifacts ==> artifacts[target] == v + "\n")
  {
    CompileAt(map[], Some(dockerfile), Some(file), target);
    SingleValueEffect(dockerfile, file, target);
  }

  lemma SingleValueEffect(dockerfile: string, file: DescriptorFile, target: File)
    requires SingleValue(target)
    ensures var v := FieldValue(Query(Fields(file)), target);
      CompileEffect(None, Some(dockerfile), Some(file), target) == if v != "" then Some(v + "\n") else None
  {
    assert target != UserDockerfile && target != CopiedDescriptor;
  }

  /** .user-config holds the REMOTE_USER line, then the CONTAINER_USER line, each only when set. */
  lemma UserConfigArtifact(dockerfile: string, file: DescriptorFile)
    ensures var artifacts := Artifacts(Some(dockerfile), Some(file));
      var config := UserConfig(Query(Fields(file)));
      (UserConfigFile in artifacts <==> config != "") && (UserConfigFile in artifacts ==> artifacts[UserConfigFile] == config)
  {
    CompileAt(map[], Some(dockerfile), Some(file), UserConfigFile);
  }

  /** The editor-customization list is consulted exactly when the primary list prints nothing. */
  lemma ExtensionsPrecedence(d: Descriptor)
    ensures (exists i :: 0 <= i < |d.extensions| && HasText(d.extensions[i])) ==>
      Extensions(d) == CommandOutput(d.extensions) && Extensions(d) != ""
    ensures (forall i :: 0 <= i < |d.extensions| ==> !HasText(d.extensions[i])) ==>
      Extensions(d) == CommandOutput(d.vscodeExtensions)
  {
    CommandOutputEmpty(d.extensions);
  }

  /** Every flattened entry has text (it holds '='), so an environment file exists iff the map is non-empty. */
  lemma EnvironmentNonEmpty(env: seq<(string, string)>)
    ensures CommandOutput(Flatten(env)) != "" <==> |env| > 0
  {
    var lines := Flatten(env);
    CommandOutputEmpty(lines);
    if |env| > 0 {
      assert lines[0][|env[0].0|] == '=';
      assert HasText(lines[0]);
    }
  }

  /**
   * The one case in which the script appends to a file it did not first
   * truncate: no REMOTE_USER but a CONTAINER_USER.
   */
  predicate AccumulatesUserConfig(dockerfile: Option<string>, descriptor: Option<DescriptorFile>) {
    dockerfile.Some? && descriptor.Some? &&
    Query(Fields(descriptor.value)).remoteUser == "" &&
    Query(Fields(descriptor.value)).containerUser != ""
  }

  lemma EffectOverlays(before: Option<string>, dockerfile: Option<string>, descriptor: Option<DescriptorFile>, target: File)
    requires !AccumulatesUserConfig(dockerfile, descriptor)
    ensures CompileEffect(before, dockerfile, descriptor, target) ==
      if CompileEffect(None, dockerfile, descriptor, target).Some? then CompileEffect(None, dockerfile, descriptor, target) else before
  {
    if target == UserDockerfile || dockerfile.None? || descriptor.None? || target == CopiedDescriptor {
    } else {
      var o := Query(Fields(descriptor.value));
      assert CompileEffect(before, dockerfile, descriptor, target) == FieldEffect(before, o, target);
      assert CompileEffect(None, dockerfile, descriptor, target) == FieldEffect(None, o, target);
      FieldEffectOverlays(before, o, target);
    }
  }

  /** Unless .user-config is only appended to, a file's new content does not depend on its old one. */
  lemma FieldEffectOverlays(before: Option<string>, o: Outputs, target: File)
    requires o.remoteUser != "" || o.containerUser == ""
    ensures FieldEffect(before, o, target) ==
      if FieldEffect(None, o, target).Some? then FieldEffect(None, o, target) else before
  {
  }

  /** Outside that case, running the compiler over an existing volume only overlays its artifacts. */
  lemma CompileOverlays(files: Volume, dockerfile: Option<string>, descriptor: Option<DescriptorFile>)
    requires !AccumulatesUserConfig(dockerfile, descriptor)
    ensures Compile(files, dockerfile, descriptor) == files + Artifacts(dockerfile, descriptor)
  {
    var artifacts := Artifacts(dockerfile, descriptor);
    forall k ensures Lookup(Compile(files, dockerfile, descriptor), k) == Lookup(files + artifacts, k) {
      CompileAt(files, dockerfile, descriptor, k);
      CompileAt(map[], dockerfile, descriptor, k);
      EffectOverlays(Lookup(files, k), dockerfile, descriptor, k);
      assert Lookup(files + artifacts, k) == if k in artifacts then Some(artifacts[k]) else Lookup(files, k);
    }
    VolumeExtensionality(Compile(files, dockerfile, descriptor), files + artifacts);
  }

  /** In the appending case each run adds the CONTAINER_USER line to what .user-config held. */
  lemma AccumulatingEffect(before: Option<string>, dockerfile: Option<string>, descriptor: Option<DescriptorFile>)
    requires AccumulatesUserConfig(dockerfile, descriptor)
    ensures var line := UserConfig(Query(Fields(descriptor.value)));
      line != "" && CompileEffect(before, dockerfile, descriptor, UserConfigFile) == Some(before.GetOr("") + line)
  {
    UserConfigAppended(before, Query(Fields(descriptor.value)));
  }

  lemma UserConfigAppended(before: Option<string>, o: Outputs)
    requires o.remoteUser == "" && o.containerUser != ""
    ensures UserConfig(o) != "" && FieldEffect(before, o, UserConfigFile) == Some(before.GetOr("") + UserConfig(o))
  {
  }

  /** In the appending case a second run makes .user-config longer. */
  lemma RerunGrows(files: Volume, dockerfile: Option<string>, descriptor: Option<DescriptorFile>)
    requires AccumulatesUserConfig(dockerfile, descriptor)
    ensures Compile(Compile(files, dockerfile, descriptor), dockerfile, descriptor) != Compile(files, dockerfile, descriptor)
  {
    var once := Compile(files, dockerfile, descriptor);
    var twice := Compile(once, dockerfile, descriptor);
    CompileAt(files, dockerfile, descriptor, UserConfigFile);
    CompileAt(once, dockerfile, descriptor, UserConfigFile);
    AccumulatingEffect(Lookup(files, UserConfigFile), dockerfile, descriptor);
    AccumulatingEffect(Lookup(once, UserConfigFile), dockerfile, descriptor);
    assert |twice[UserConfigFile]| > |once[UserConfigFile]|;
  }

  /** Outside the appending case a second run finds every artifact already in place. */
  lemma RerunStable(files: Volume, dockerfile: Option<string>, descriptor: Option<DescriptorFile>)
    requires !AccumulatesUserConfig(dockerfile, descriptor)
    ensures Compile(Compile(files, dockerfile, descriptor), dockerfile, descriptor) == Compile(files, dockerfile, descriptor)
  {
    var artifacts := Artifacts(dockerfile, descriptor);
    CompileOverlays(files, dockerfile, descriptor);
    CompileOverlays(files + artifacts, dockerfile, descriptor);
    assert files + artifacts + artifacts == files + artifacts;
  }

  /**
   * Running the compiler a second time over the same volume changes nothing,
   * except when .user-config is only appended to: then each run adds
   * another CONTAINER_USER line.
   */
  lemma RerunUnchangedIff(files: Volume, dockerfile: Option<string>, descriptor: Option<DescriptorFile>)
    ensures var once := Compile(files, dockerfile, descriptor);
      Compile(once, dockerfile, descriptor) == once <==> !AccumulatesUserConfig(dockerfile, descriptor)
  {
    if AccumulatesUserConfig(dockerfile, descriptor) {
      RerunGrows(files, dockerfile, descriptor);
    } else {
      RerunStable(files, dockerfile, descriptor);
    }
  }
}
