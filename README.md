# Self-hosted runner manager: a verified model

The repository runs GitHub Actions runners on demand. An AWS Lambda function,
`terraform/lambda/runner_manager.py`, is reached through API Gateway. A POST
to a path ending in `/create` launches one EC2 instance that registers itself
as a runner of the configured repository. A POST to a path ending in
`/destroy` terminates every managed runner instance. Anything else is refused.

This project models the deterministic logic of that file in Dafny:

- the `.env` loader `load_env_file`, as a class whose map of variables is
  updated line by line, proved against a recursive specification;
- module start-up: the settings read with their defaults, and the fatal
  check for a missing token;
- probing the event for path and method, and choosing the route;
- instance discovery in `find_existing_instance`, as nested loops proved
  equal to a flattening function;
- `get_or_create_security_group`, as a decision over the outcomes of its
  EC2 calls;
- the boot script and the `run_instances` parameters of the create branch;
- `lambda_handler` as a whole, returning its response and the ordered list of
  external calls it makes.

External calls do not happen in the model. This covers EC2, the GitHub
token request, the clock and the waiter. Their results are an input record,
`Handler.CloudOutcomes`. What the handler does to the outside world is the
sequence of `Effects.Call` values it returns.

Modules, one per file: `Wrappers` (Option), `Text` (the Python `str`
operations used), `EnvFile`, `Config`, `Ec2`, `Effects` (the external calls),
`SecurityGroup`, `Launch`, `Routing`, `Handler`.

Where the source's behaviour is subtle, the model follows the code:

- `event.get("httpMethod", event.get("requestContext", {}).get("http", {}).get("method", ""))`
  evaluates its default argument first. So an event whose `requestContext`,
  or whose `requestContext.http`, is present but is not an object raises,
  even when `httpMethod` is present. A request shaped like that therefore
  faults instead of receiving the 400 "Invalid request" reply (`Routing.ProbeRaises`,
  `Routing.HttpMethodDoesNotGuardProbe`).
- The path is not examined until after `describe_instances` has been called.
  A path that is not a string (JSON null, a number, an object) raises at
  `.endswith` after that call (`Handler.FaultKind.PathNotText`).
- Discovery runs before routing. A failing `describe_instances` therefore
  faults even for a request that would have been refused.
- `if security_group_id:` is a truthiness test. An empty group id is left out
  of the request just as `None` is.
- The security group may be created and then fail to be authorized. The
  exception is swallowed and the helper returns `None`. The launch then goes
  ahead without the group, although that group now exists.
- Assigning to `os.environ` can raise: `setenv` refuses an empty name, and a
  NUL character is refused in a name or a value. Such an entry ends loading at
  that line. The variables set before it stay set (`EnvFile.RejectedNewKeyStopsLoading`,
  `EnvFile.FailedKeepsEarlierLines`).

## Model

| member | source | states |
|---|---|---|
| `Text.Strip` | terraform/lambda/runner_manager.py:13 | the stripped line neither starts nor ends with Python whitespace |
| `Text.StripCutsOnlySpace` | terraform/lambda/runner_manager.py:13 | the stripped line sits inside the original one, and everything cut off before or after it is whitespace |
| `Text.StripKeepsUnpadded` | terraform/lambda/runner_manager.py:13 | a line without leading or trailing whitespace is left as it is by `strip()` |
| `Text.IndexOf` | terraform/lambda/runner_manager.py:14-15 | finds a character exactly when it occurs; the index found is its first occurrence |
| `Text.NatToDecimal` | terraform/lambda/runner_manager.py:134 | `str` of a natural number is a non-empty digit string with no leading zero |
| `Text.IntToDecimal` | terraform/lambda/runner_manager.py:134 | `str` of an integer has a leading `-` exactly for a negative number, followed by a non-empty digit string that starts with `0` only for zero |
| `Text.IntRoundTrip` | terraform/lambda/runner_manager.py:134 | reading back the decimal text `str(i)` gives `i`, negative numbers included |
| `EnvFile.ParseLine` | terraform/lambda/runner_manager.py:13-15 | a line is skipped exactly when its stripped text is empty, starts with `#` or has no `=`; otherwise the stripped text is key, `=`, value, with no `=` in the key |
| `EnvFile.FirstSeparatorEndsKey` | terraform/lambda/runner_manager.py:15 | in `key=value` with no `=` in the key, the first `=` is the one right after the key, whatever the value holds |
| `EnvFile.SplitIsUnique` | terraform/lambda/runner_manager.py:15 | there is exactly one way to split a line into a key without `=`, then `=`, then a value |
| `EnvFile.ParseFormattedLine` | terraform/lambda/runner_manager.py:13-15 | a line written as `key=value` reads back as exactly that pair when the key has no `=`, and the line neither starts with `#` nor has whitespace at either end; `=` in the value is kept |
| `EnvFile.ParseUnpaddedLine` | terraform/lambda/runner_manager.py:13-15 | a line with no whitespace at either end that does not start with `#` splits into the key before its first `=` and the value after it |
| `EnvFile.UnpaddedLineHasEntry` | terraform/lambda/runner_manager.py:13-14 | a line that holds `=`, has no whitespace at either end and does not start with `#` contributes an entry |
| `EnvFile.LoadFrom` | terraform/lambda/runner_manager.py:12-17 | loading never changes or removes a variable that was already set; a load stops only at a rejected entry whose variable is still unset at that point |
| `EnvFile.LoadMatchesFirstWins` | terraform/lambda/runner_manager.py:12-17 | when no entry is refused while its variable is still unset (every refused entry names a variable the process or an earlier line of the file set, so it is skipped), the result is the file's entries as a map where the first line naming a key wins, overlaid by the variables already set |
| `EnvFile.IgnoredLineKeepsEnvironment` | terraform/lambda/runner_manager.py:14 | a blank line, a comment or a line without `=`, wherever it stands in the file, is passed over: loading continues from the next line with the environment unchanged |
| `EnvFile.RejectedNewKeyStopsLoading` | terraform/lambda/runner_manager.py:16-17 | an entry raises at its own line exactly when `os.environ` refuses it (empty name, NUL in name or value) and its variable is not already set; a set variable skips the line |
| `EnvFile.FailedKeepsEarlierLines` | terraform/lambda/runner_manager.py:12-17 | when loading raises, the variables it leaves are exactly those that loading the lines before the failing one produces |
| `EnvFile.Environment.constructor` | terraform/lambda/runner_manager.py:16-17 | the environment starts with the process's variables |
| `EnvFile.Environment.LoadLine` | terraform/lambda/runner_manager.py:13-17 | one pass of the loop body raises exactly when its line is an entry for an unset variable that `os.environ` refuses, and then nothing changes; otherwise the variables are the old ones with at most that line's own variable added, and loading the rest goes on as `LoadFrom` does from the next line |
| `EnvFile.Environment.LoadEnvFile` | terraform/lambda/runner_manager.py:8-17 | with no file nothing changes; otherwise the variables after the loop, and the line an exception stopped it at, are those of the specification `LoadFrom` |
| `Config.GetOr` | terraform/lambda/runner_manager.py:23-28 | `os.environ.get(key, default)`: the variable's value whenever it is set, even to "", and the default only when it is not set |
| `Config.Configure` | terraform/lambda/runner_manager.py:23-28 | settings exist exactly when `GITHUB_TOKEN` is set and non-empty, and carry that token; region, repository, key pair, instance type and image each take the variable's value when it is set and otherwise the default of lines 23 and 25-28 |
| `Config.ColdStart` | terraform/lambda/runner_manager.py:19-38 | start-up fails at the file exactly when loading raised, at that line; otherwise it succeeds exactly when the loaded environment yields settings, and then with those settings and that environment; a started function has a non-empty token and every variable the process had before `.env` was read |
| `Config.PresetVariablesWin` | terraform/lambda/runner_manager.py:16-28 | each of the six settings takes the process's own value whenever the process sets that variable, whatever `.env` says |
| `Config.StartsWithoutFileIffToken` | terraform/lambda/runner_manager.py:24-38 | with no `.env` file, start-up succeeds exactly when the process has a non-empty `GITHUB_TOKEN` |
| `Ec2.FlattenAppend` | terraform/lambda/runner_manager.py:102-104 | discovery over two runs of reservations is the discovery of the first followed by that of the second |
| `Ec2.FlattenHoldsExactly` | terraform/lambda/runner_manager.py:101-105 | an instance is discovered exactly when some reservation holds it |
| `Ec2.FlattenLength` | terraform/lambda/runner_manager.py:101-105 | the number discovered is the sum of the reservations' instance counts: none is lost or repeated |
| `Ec2.FindExistingInstances` | terraform/lambda/runner_manager.py:101-105 | the nested appending loops produce every reservation's instances, reservation by reservation, in order |
| `Ec2.InstanceIds` | terraform/lambda/runner_manager.py:203 | one id per instance, position by position |
| `Ec2.DiscoveredIds` | terraform/lambda/runner_manager.py:101-105 | an id is in the destroy list exactly when some reservation holds an instance with that id |
| `SecurityGroup.GetOrCreateSecurityGroup` | terraform/lambda/runner_manager.py:42-92 | the lookup comes first; a group found by name gives its first id and nothing else is called; creation is attempted exactly when none was found, lookup failure included; after that the calls are exactly describe, create, and an ingress authorization for the created group's id and the three rules when creation returned; rules are added only to a group that was created; a group id results exactly when one was found, or one was created and its rules were added |
| `Launch.JoinAround` | terraform/lambda/runner_manager.py:139-165 | the script text around one line is the text before it, a newline, the line, a newline, the text after it |
| `Launch.LineOccursInJoin` | terraform/lambda/runner_manager.py:139-165 | a line placed between other lines of the script occurs in its text |
| `Launch.BootScript` | terraform/lambda/runner_manager.py:139-165 | the boot script holds `--url https://github.com/<repo> --token <token>` |
| `Launch.BuildLaunchRequest` | terraform/lambda/runner_manager.py:167-187 | the request asks for exactly one instance of the configured image, type and key pair, with the marker tag and the expiry tag and the given boot script; `SecurityGroupIds` is present exactly when the group id is truthy, and then holds only that id |
| `Launch.ExpiryIsLaunchTimePlusLease` | terraform/lambda/runner_manager.py:134 | the `ExpireAt` tag of a launched request reads back as launch time plus 3600 seconds |
| `Launch.LaunchedRunnerIsDiscoverable` | terraform/lambda/runner_manager.py:95-99 | a launched runner carries `GitHubRunner=True`, and the discovery tag filter asks for exactly the value it carries |
| `Launch.BootScriptRegistersRunner` | terraform/lambda/runner_manager.py:155 | the launched boot script registers the runner against the configured repository with the token fetched |
| `Routing.ExtractPath` | terraform/lambda/runner_manager.py:122 | the path is the first of `resource`, `rawPath`, `path` present in the event, else "", and reading it never raises |
| `Routing.ExtractMethod` | terraform/lambda/runner_manager.py:123 | the probe raises exactly when `requestContext`, or its `http`, is present but not an object; otherwise the method is `httpMethod`, else `requestContext.http.method`, else "" |
| `Routing.HttpMethodDoesNotGuardProbe` | terraform/lambda/runner_manager.py:123 | whether the method probe raises does not depend on `httpMethod`: the nested default is evaluated even when `httpMethod` is present |
| `Routing.RestEnvelope` | terraform/lambda/runner_manager.py:122-123 | a REST-style event yields its `resource` and `httpMethod` |
| `Routing.HttpApiEnvelope` | terraform/lambda/runner_manager.py:122-123 | an HTTP-API-style event yields its `rawPath` and `requestContext.http.method` |
| `Routing.MissingFieldsDoNotRaise` | terraform/lambda/runner_manager.py:122-123 | an event with none of the probed fields reads as path "" and method "" without raising |
| `Routing.SuffixesExclusive` | terraform/lambda/runner_manager.py:200 | no path ends with both `/create` and `/destroy` |
| `Routing.RouteOf` | terraform/lambda/runner_manager.py:129-208 | create exactly for POST to a `/create` path, destroy exactly for POST to a `/destroy` path, and invalid exactly when the method is not POST or the path has neither suffix |
| `Handler.TokenUrl` | terraform/lambda/runner_manager.py:108 | the endpoint starts with `https://api.github.com/repos/`, ends with `/actions/runners/registration-token`, and the repository is exactly what lies between |
| `Handler.TokenRequest` | terraform/lambda/runner_manager.py:108-113 | the token `POST` goes to the configured repository's endpoint, and its `Authorization` header is `Bearer ` followed by exactly the configured token |
| `Handler.LaunchWithoutGroup` | terraform/lambda/runner_manager.py:137-189 | when no group could be obtained, the create flow still issues one launch, with no `SecurityGroupIds` |
| `Handler.CreateRunner` | terraform/lambda/runner_manager.py:133-198 | after discovery, the calls are the token request, the security-group calls, one launch for the runner request with expiry at now plus 3600, and the 5 s × 6 wait on that instance; a failing token request, launch or wait faults at that point; otherwise 200 with the instance id |
| `Handler.DestroyRunners` | terraform/lambda/runner_manager.py:200-205 | after discovery: with no instance, 404 and no further call; otherwise one terminate call holding exactly the discovered ids in order, and those ids echoed in the 200 body, or a fault when the terminate call raises |
| `Handler.LambdaHandler` | terraform/lambda/runner_manager.py:117-208 | a raising method probe calls nothing; every other invocation first calls discovery; an invalid route gets 400 "Invalid request" whatever exists; create with an existing runner gets 400 "Runner already exists." with no token request and no launch; destroy is discovery followed by the calls of `DestroyRunners`; create otherwise is discovery followed by `CreateFlow` |

## Left out

- The boto3 calls and the GitHub token `requests.post` are not executed; only the call and its outcome are modelled. Each call is an `Effects.Call` value in the returned list, and its outcome (raised or returned) is a field of `Handler.CloudOutcomes`. No EC2 or HTTP semantics are modelled behind them.
- `Handler.LambdaHandler`: the event is typed as a JSON object (`map<string, Json>`). A payload that is not an object (an array, a string, null) makes `event.get` at line 122 raise before any call; the model does not cover that case.
- The `Accept` header of the token request is not modelled. Neither is the parsing of the token response: `raise_for_status()` and `["token"]` are one outcome, a token or a failure.
- Creating the EC2 client at start-up (line 40) is not modelled.
- The waiter's 5 s polling and its timeout are one boolean outcome. The model records the delay and attempt count it is called with.
- `time.time()` is the integer `now` in `CloudOutcomes`; truncation of the float is not modelled.
- `os.path.exists`, `open` and iterating the file by lines are not modelled. The file is `Option<seq<string>>`, where None means there is no file. Decoding errors while reading are not modelled.
- `print` logging is left out. So is `json.dumps` of the response bodies: bodies are structured values (`Handler.Body`).
- The shell script's runtime behaviour is left out: apt, useradd, checksum verification and svc.sh. Only its text is modelled.
- The check-then-act race between concurrent invocations is left out, because the model is sequential.
- JSON floats in the event are not modelled; numbers are integers. No operation of the handler reads them, it only compares them.
- Which exception a step raises is not modelled. An unhandled exception is one `Handler.Fault` kind per step.
- `Launch.BootScript`: its contract states only that the script holds the `config.sh` URL and token arguments. The remaining fixed text is given by its line constants, not by a contract.
- `SecurityGroup.GetOrCreateSecurityGroup`: a lookup response without `SecurityGroups` or `GroupId`, or a creation response without `GroupId`, raises `KeyError` inside the `try`. The model folds these into the raised outcomes `LookupRaised` and `CreationRaised`.
