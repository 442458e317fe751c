/**
 * The assembly of `init.sh`, the script the init container runs before the
 * two image builds: the generated clone-and-configure script, then the
 * DevContainer compiler, then the heredoc that writes the wrapper
 * Dockerfile into the shell's current directory.
 */
module InitScript {
  import opened Wrappers
  import opened Identity
  import opened Images
  import opened DevContainer

  /** A piece of init.sh. */
  datatype Fragment =
    | Generated(text: string)
    | Compiler(repoName: string, cloneCommand: seq<string>)
    | WrapperHeredoc(dockerfile: seq<Instruction>)

  /**
   * `_create_wrapper_dockerfile_script` as written: it builds the compiler
   * text (indexing the first URL on the way) but has no `return`, so its
   * caller receives `None`.
   */
  function WrapperDockerfileScript(config: WorkspaceConfig): Option<Fragment>
    requires |config.githubUrls| >= 1
  {
    var _ := CloneCommand(config);
    None
  }

  /** The same function returning the script it builds. */
  function CorrectedWrapperDockerfileScript(config: WorkspaceConfig): Option<Fragment>
    requires |config.githubUrls| >= 1
  {
    Some(Compiler(config.repoName, CloneCommand(config)))
  }

  /** `init_script += fragment` when the fragment is truthy. */
  function AppendIfPresent(script: seq<Fragment>, fragment: Option<Fragment>): seq<Fragment> {
    match fragment
    case Some(f) => script + [f]
    case None => script
  }

  /** `_create_init_script_configmap`'s assembly of init.sh, as written. */
  function InitScriptAsWritten(generated: string, account: string, ids: WorkspaceIds, config: WorkspaceConfig): seq<Fragment>
    requires |config.githubUrls| >= 1
  {
    AppendIfPresent(AppendIfPresent([Generated(generated)], WrapperDockerfileScript(config)),
                    Some(WrapperHeredoc(WrapperDockerfile(account, ids))))
  }

  /** The assembly with the compiler fragment returned. */
  function InitScript(generated: string, account: string, ids: WorkspaceIds, config: WorkspaceConfig): seq<Fragment>
    requires |config.githubUrls| >= 1
  {
    AppendIfPresent(AppendIfPresent([Generated(generated)], CorrectedWrapperDockerfileScript(config)),
                    Some(WrapperHeredoc(WrapperDockerfile(account, ids))))
  }

  predicate HasCompiler(script: seq<Fragment>) {
    exists i :: 0 <= i < |script| && script[i].Compiler?
  }

  /**
   * As written, init.sh is the generated script followed by the wrapper
   * heredoc: the DevContainer compiler never reaches it, so nothing in this
   * file copies the user's Dockerfile into the base build context or
   * writes any of the descriptor artifacts.
   */
  lemma InitScriptOmitsCompiler(generated: string, account: string, ids: WorkspaceIds, config: WorkspaceConfig)
    requires |config.githubUrls| >= 1
    ensures InitScriptAsWritten(generated, account, ids, config) ==
      [Generated(generated), WrapperHeredoc(WrapperDockerfile(account, ids))]
    ensures !HasCompiler(InitScriptAsWritten(generated, account, ids, config))
  {
  }

  /**
   * With the compiler returned, init.sh runs it after the generated script
   * and before the heredoc, with the clone command built from the
   * configuration.
   */
  lemma InitScriptOrder(generated: string, account: string, ids: WorkspaceIds, config: WorkspaceConfig)
    requires |config.githubUrls| >= 1
    ensures InitScript(generated, account, ids, config) ==
      [Generated(generated), Compiler(config.repoName, CloneCommand(config)), WrapperHeredoc(WrapperDockerfile(account, ids))]
    ensures HasCompiler(InitScript(generated, account, ids, config))
  {
    assert InitScript(generated, account, ids, config)[1].Compiler?;
  }

  // ---- Where the wrapper heredoc writes ----

  /**
   * The directory `cat > Dockerfile` writes into: the shell's directory when
   * the first heredoc runs, given the directory the generated script leaves
   * it in and how the compiler leaves it.
   */
  function HeredocDirectory(script: seq<Fragment>, directory: string, compilerLeaves: string): Option<string>
    decreases |script|
  {
    if script == [] then None
    else match script[0]
      case WrapperHeredoc(_) => Some(directory)
      case Compiler(_, _) => HeredocDirectory(script[1..], compilerLeaves, compilerLeaves)
      case Generated(_) => HeredocDirectory(script[1..], directory, compilerLeaves)
  }

  /** The directory the wrapper build reads its Dockerfile from. */
  function WrapperBuildDirectory(): string {
    "/" + WrapperContextSubPath
  }

  /** The base build reads the file the compiler writes first. */
  lemma BaseBuildReadsUserDockerfile()
    ensures PathOf(UserDockerfile) == "/" + BaseContextSubPath + "/Dockerfile"
    ensures WrapperDirectory == WrapperBuildDirectory()
  {
    WrapperBuildReadsWrapperDirectory();
  }

  /** The wrapper build reads the directory the compiler starts in. */
  lemma WrapperBuildReadsWrapperDirectory()
    ensures WrapperDirectory == WrapperBuildDirectory()
  {
  }

  /**
   * As written, the heredoc writes wherever the generated script left the
   * shell: init.sh itself never moves it into the wrapper build directory.
   */
  lemma AsWrittenHeredocDirectory(generated: string, account: string, ids: WorkspaceIds, config: WorkspaceConfig,
                                  directory: string, compilerLeaves: string)
    requires |config.githubUrls| >= 1
    ensures HeredocDirectory(InitScriptAsWritten(generated, account, ids, config), directory, compilerLeaves) == Some(directory)
  {
    InitScriptOmitsCompiler(generated, account, ids, config);
  }

  /**
   * With the compiler fragment returned but the script otherwise as written,
   * the wrapper Dockerfile lands in the wrapper build directory exactly
   * when the repository was already cloned; after the fallback clone it
   * lands in /workspaces.
   */
  lemma FallbackCloneMisplacesWrapper(generated: string, account: string, ids: WorkspaceIds, config: WorkspaceConfig,
                                      directory: string, repositoryPresent: bool)
    requires |config.githubUrls| >= 1
    ensures var target := HeredocDirectory(InitScript(generated, account, ids, config), directory, FinalDirectory(repositoryPresent));
      target == Some(WrapperBuildDirectory()) <==> repositoryPresent
  {
    InitScriptOrder(generated, account, ids, config);
    var s := InitScript(generated, account, ids, config);
    var leaves := FinalDirectory(repositoryPresent);
    assert s[1..][1..] == [WrapperHeredoc(WrapperDockerfile(account, ids))];
    assert HeredocDirectory(s, directory, leaves) == HeredocDirectory(s[1..], directory, leaves);
    assert HeredocDirectory(s[1..], directory, leaves) == HeredocDirectory(s[1..][1..], leaves, leaves);
    assert HeredocDirectory(s, directory, leaves) == Some(leaves);
    BaseBuildReadsUserDockerfile();
    assert WorkspacesDirectory != WrapperBuildDirectory() by {
      assert |WorkspacesDirectory| != |WrapperBuildDirectory()|;
    }
  }

  /** With both corrections the wrapper Dockerfile always lands in the wrapper build directory. */
  lemma CorrectedHeredocInWrapperContext(generated: string, account: string, ids: WorkspaceIds, config: WorkspaceConfig,
                                         directory: string, repositoryPresent: bool)
    requires |config.githubUrls| >= 1
    ensures HeredocDirectory(InitScript(generated, account, ids, config), directory, CorrectedFinalDirectory(repositoryPresent))
      == Some(WrapperBuildDirectory())
  {
    InitScriptOrder(generated, account, ids, config);
    var s := InitScript(generated, account, ids, config);
    var leaves := CorrectedFinalDirectory(repositoryPresent);
    assert s[1..][1..] == [WrapperHeredoc(WrapperDockerfile(account, ids))];
    assert HeredocDirectory(s, directory, leaves) == HeredocDirectory(s[1..], directory, leaves);
    assert HeredocDirectory(s[1..], directory, leaves) == HeredocDirectory(s[1..][1..], leaves, leaves);
    assert HeredocDirectory(s, directory, leaves) == Some(leaves);
    BaseBuildReadsUserDockerfile();
  }

  /** The heredoc's Dockerfile builds on the image the base build pushes, whatever the script around it. */
  lemma HeredocBuildsOnBase(generated: string, account: string, ids: WorkspaceIds, config: WorkspaceConfig)
    requires |config.githubUrls| >= 1
    ensures var s := InitScript(generated, account, ids, config);
      s[|s| - 1].WrapperHeredoc? && SourceImage(s[|s| - 1].dockerfile) == Some(BaseImage(account, ids))
  {
    InitScriptOrder(generated, account, ids, config);
    WrapperBuildsOnBase(account, ids);
  }
}
