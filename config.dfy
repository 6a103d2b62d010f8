/**
 * Module start-up of the handler: the optional `.env` file is loaded into
 * the process environment, the six settings are read with their defaults,
 * and a missing or empty `GITHUB_TOKEN` stops the function from starting.
 */
module Config {
  import opened Wrappers
  import opened EnvFile

  const DefaultRegion := "us-east-1"
  const DefaultRepo := "KarimZakzouk/self-hosted-dragon-runner"
  const DefaultKeyPair := "MyKeyPair"
  const DefaultInstanceType := "t2.micro"
  const DefaultAmi := "ami-020cba7c55df1f615"

  datatype Settings = Settings(
    awsRegion: string,
    githubToken: string,
    githubRepo: string,
    keyPairName: string,
    instanceType: string,
    amiId: string)

  /** `os.environ.get(key, default)`: a variable set to "" is still set. */
  function GetOr(env: map<string, string>, key: string, default: string): (r: string)
    ensures key in env ==> r == env[key]
    ensures key !in env ==> r == default
  {
    if key in env then env[key] else default
  }

  /** The settings read from the environment, or None when the token check at start-up fails. */
  function Configure(env: map<string, string>): (r: Option<Settings>)
    ensures r.Some? <==> "GITHUB_TOKEN" in env && env["GITHUB_TOKEN"] != ""
    ensures r.Some? ==> r.value.githubToken == env["GITHUB_TOKEN"]
    ensures r.Some? ==> r.value.awsRegion == (if "AWS_REGION" in env then env["AWS_REGION"] else DefaultRegion)
    ensures r.Some? ==> r.value.githubRepo == (if "GITHUB_REPO" in env then env["GITHUB_REPO"] else DefaultRepo)
    ensures r.Some? ==> r.value.keyPairName == (if "KEY_PAIR_NAME" in env then env["KEY_PAIR_NAME"] else DefaultKeyPair)
    ensures r.Some? ==> r.value.instanceType == (if "INSTANCE_TYPE" in env then env["INSTANCE_TYPE"] else DefaultInstanceType)
    ensures r.Some? ==> r.value.amiId == (if "AMI_ID" in env then env["AMI_ID"] else DefaultAmi)
  {
    var token := GetOr(env, "GITHUB_TOKEN", "");
    if token == "" then None
    else Some(Settings(
      GetOr(env, "AWS_REGION", DefaultRegion),
      token,
      GetOr(env, "GITHUB_REPO", DefaultRepo),
      GetOr(env, "KEY_PAIR_NAME", DefaultKeyPair),
      GetOr(env, "INSTANCE_TYPE", DefaultInstanceType),
      GetOr(env, "AMI_ID", DefaultAmi)))
  }

  /** How a cold start ends. */
  datatype Startup =
    | Ready(settings: Settings, env: map<string, string>)
    | EnvFileRaised(line: nat)
    | MissingToken

  /** The environment once `load_env_file` has run (None: there is no such file). */
  function LoadedEnvironment(processEnv: map<string, string>, envFile: Option<seq<string>>): LoadResult {
    if envFile.None? then Loaded(processEnv) else LoadFrom(processEnv, envFile.value, 0)
  }

  /** Loading `.env`, then reading the settings. */
  function ColdStart(processEnv: map<string, string>, envFile: Option<seq<string>>): (r: Startup)
    ensures r.Ready? ==> r.settings.githubToken != ""
    ensures r.Ready? ==> forall k :: k in processEnv ==> k in r.env && r.env[k] == processEnv[k]
    ensures r.EnvFileRaised? ==> envFile.Some? && r.line < |envFile.value|
    // the start-up fails at the file exactly when loading raised, at the same line
    ensures var loaded := LoadedEnvironment(processEnv, envFile);
      && (r.EnvFileRaised? <==> loaded.Failed?)
      && (loaded.Failed? ==> r == EnvFileRaised(loaded.line))
    // once loaded, it starts exactly when the loaded environment yields settings, and with those
    ensures var loaded := LoadedEnvironment(processEnv, envFile);
      loaded.Loaded? ==>
        && (r.Ready? <==> Configure(loaded.env).Some?)
        && (r.Ready? ==> r.settings == Configure(loaded.env).value && r.env == loaded.env)
  {
    var loaded := LoadedEnvironment(processEnv, envFile);
    if loaded.Failed? then EnvFileRaised(loaded.line)
    else match Configure(loaded.env)
      case None => MissingToken
      case Some(s) => Ready(s, loaded.env)
  }

  /**
   * A variable set in the process before start-up decides its setting
   * whatever the `.env` file says.
   */
  lemma PresetVariablesWin(processEnv: map<string, string>, envFile: Option<seq<string>>)
    requires ColdStart(processEnv, envFile).Ready?
    ensures var s := ColdStart(processEnv, envFile).settings;
      && ("GITHUB_TOKEN" in processEnv ==> s.githubToken == processEnv["GITHUB_TOKEN"])
      && ("AWS_REGION" in processEnv ==> s.awsRegion == processEnv["AWS_REGION"])
      && ("GITHUB_REPO" in processEnv ==> s.githubRepo == processEnv["GITHUB_REPO"])
      && ("KEY_PAIR_NAME" in processEnv ==> s.keyPairName == processEnv["KEY_PAIR_NAME"])
      && ("INSTANCE_TYPE" in processEnv ==> s.instanceType == processEnv["INSTANCE_TYPE"])
      && ("AMI_ID" in processEnv ==> s.amiId == processEnv["AMI_ID"])
  {
  }

  /** With no `.env` file, start-up succeeds exactly when the process has a non-empty token. */
  lemma StartsWithoutFileIffToken(processEnv: map<string, string>)
    ensures ColdStart(processEnv, None).Ready?
        <==> "GITHUB_TOKEN" in processEnv && processEnv["GITHUB_TOKEN"] != ""
  {
  }
}
