/** `ConfigValidator` of src/utils/configValidator.ts. Each check throws the first error it
    meets; here a check returns `Err` with that error, and `Ok` when every check passes.
    The input is a loaded configuration object, so every field may be missing or of the
    wrong type. */
module ConfigValidator {
  import opened Wrappers
  import opened JsValues
  import opened Errors
  import opened ConfigTypes
  import opened Text

  function Invalid<T>(message: string, code: string): (r: Result<T, Error>)
    requires code != ""
    ensures r.Err? && r.error.cls == ValidationError && r.error.code == Some(code)
  {
    Err(NewError(ValidationError, message, Some(code)))
  }

  function ConfigFailure<T>(message: string, code: string): (r: Result<T, Error>)
    requires code != ""
    ensures r.Err? && r.error.cls == ConfigError && r.error.code == Some(code)
  {
    Err(NewError(ConfigError, message, Some(code)))
  }

  /** `!x || typeof x !== 'string'`: the test every required string field must fail. */
  predicate NotAValidString(x: JsValue) {
    !Truthy(x) || TypeOf(x) != "string"
  }

  // ---------------------------------------------------------------------------------
  // What each validator accepts, stated field by field

  predicate PortAcceptable(port: JsValue) {
    port == Undefined || (port.Num? && 1.0 <= port.n <= 65535.0)
  }

  predicate ServerAcceptable(server: JsValue) {
    && IsNonEmptyString(Prop(server, "host"))
    && PortAcceptable(Prop(server, "port"))
    && IsNonEmptyString(Prop(server, "userName"))
    && (Truthy(Prop(server, "password")) || Truthy(Prop(server, "sshKey")))
    && (Truthy(Prop(server, "sshKey")) ==> Prop(server, "sshKey").Str?)
  }

  predicate PathsAcceptable(paths: JsValue) {
    && IsNonEmptyString(Prop(paths, "localDist"))
    && IsNonEmptyString(Prop(paths, "remotePath"))
    && IsNonEmptyString(Prop(paths, "projectName"))
  }

  /** A hook list may be absent (or any falsy value); when present it must be an array. */
  predicate HookListAcceptable(v: JsValue) {
    !Truthy(v) || v.Arr?
  }

  predicate FlagAcceptable(v: JsValue) {
    v == Undefined || v.Bool?
  }

  predicate OptionsAcceptable(options: JsValue) {
    && Truthy(options)
    && HookListAcceptable(Prop(options, "preDeploy"))
    && HookListAcceptable(Prop(options, "postDeploy"))
    && FlagAcceptable(Prop(options, "backup"))
    && FlagAcceptable(Prop(options, "dichromatic"))
  }

  predicate EnvironmentAcceptable(config: JsValue) {
    && IsNonEmptyString(Prop(config, "name"))
    && ServerAcceptable(Prop(config, "server"))
    && PathsAcceptable(Prop(config, "paths"))
    && OptionsAcceptable(Prop(config, "options"))
  }

  /** The codes a single configuration can be rejected with. */
  predicate ElementCode(code: string) {
    code == "CONFIG_EMPTY" || code == "CONFIG_NAME_INVALID"
    || StartsWith(code, "SERVER_") || StartsWith(code, "PATH_") || StartsWith(code, "OPTIONS_")
  }

  // ---------------------------------------------------------------------------------
  // The validators

  /** `validateServerConfig`: host, port, userName, authentication, key type, in order. */
  function ValidateServerConfig(server: JsValue): (r: Result<Unit, Error>)
    ensures r.Ok? <==> ServerAcceptable(server)
    ensures r.Err? ==> r.error.cls == ValidationError
    ensures r.Err? ==> r.error.code.Some? && StartsWith(r.error.code.value, "SERVER_")
  {
    var host, port, userName := Prop(server, "host"), Prop(server, "port"), Prop(server, "userName");
    var password, sshKey := Prop(server, "password"), Prop(server, "sshKey");
    if !Truthy(server) then Invalid("服务器配置不能为空", "SERVER_CONFIG_EMPTY")
    else if NotAValidString(host) then Invalid("服务器地址必须是有效的字符串", "SERVER_HOST_INVALID")
    else if port != Undefined && (TypeOf(port) != "number" || port.n < 1.0 || port.n > 65535.0) then
      Invalid("服务器端口必须是1-65535之间的数字", "SERVER_PORT_INVALID")
    else if NotAValidString(userName) then Invalid("服务器用户名必须是有效的字符串", "SERVER_USER_INVALID")
    else if !Truthy(password) && !Truthy(sshKey) then Invalid("必须提供密码或SSH密钥进行认证", "SERVER_AUTH_MISSING")
    else if Truthy(sshKey) && TypeOf(sshKey) != "string" then
      Invalid("SSH密钥必须是有效的字符串", "SERVER_SSH_KEY_INVALID")
    else Ok(Unit)
  }

  /** `validatePathConfig`: localDist, remotePath, projectName, in order. */
  function ValidatePathConfig(paths: JsValue): (r: Result<Unit, Error>)
    ensures r.Ok? <==> PathsAcceptable(paths)
    ensures r.Err? ==> r.error.cls == ValidationError
    ensures r.Err? ==> r.error.code.Some? && StartsWith(r.error.code.value, "PATH_")
  {
    if !Truthy(paths) then Invalid("路径配置不能为空", "PATH_CONFIG_EMPTY")
    else if NotAValidString(Prop(paths, "localDist")) then
      Invalid("本地构建目录路径必须是有效的字符串", "PATH_LOCAL_INVALID")
    else if NotAValidString(Prop(paths, "remotePath")) then
      Invalid("远程部署路径必须是有效的字符串", "PATH_REMOTE_INVALID")
    else if NotAValidString(Prop(paths, "projectName")) then
      Invalid("项目名称必须是有效的字符串", "PATH_PROJECT_NAME_INVALID")
    else Ok(Unit)
  }

  /** `validateDeployOptions`: the two hook lists, then the two flags. */
  function ValidateDeployOptions(options: JsValue): (r: Result<Unit, Error>)
    ensures r.Ok? <==> OptionsAcceptable(options)
    ensures r.Err? ==> r.error.cls == ValidationError
    ensures r.Err? ==> r.error.code.Some? && StartsWith(r.error.code.value, "OPTIONS_")
  {
    var pre, post := Prop(options, "preDeploy"), Prop(options, "postDeploy");
    var backup, dichromatic := Prop(options, "backup"), Prop(options, "dichromatic");
    if !Truthy(options) then Invalid("部署选项不能为空", "OPTIONS_CONFIG_EMPTY")
    else if Truthy(pre) && !pre.Arr? then Invalid("预部署命令必须是字符串数组", "OPTIONS_PRE_DEPLOY_INVALID")
    else if Truthy(post) && !post.Arr? then Invalid("部署后命令必须是字符串数组", "OPTIONS_POST_DEPLOY_INVALID")
    else if backup != Undefined && TypeOf(backup) != "boolean" then
      Invalid("备份选项必须是布尔值", "OPTIONS_BACKUP_INVALID")
    else if dichromatic != Undefined && TypeOf(dichromatic) != "boolean" then
      Invalid("红绿模式选项必须是布尔值", "OPTIONS_DICHROMATIC_INVALID")
    else Ok(Unit)
  }

  /** `validateEnvironmentConfig`: the object itself, its name, then server, paths and
      options; on success the very object passed in is returned. */
  function ValidateEnvironmentConfig(config: JsValue): (r: Result<JsValue, Error>)
    ensures r.Ok? <==> EnvironmentAcceptable(config)
    ensures r.Ok? ==> r.value == config
    ensures r.Err? ==> r.error.code.Some? && ElementCode(r.error.code.value)
  {
    if !Truthy(config) then ConfigFailure("配置对象不能为空", "CONFIG_EMPTY")
    else if NotAValidString(Prop(config, "name")) then Invalid("环境名称必须是有效的字符串", "CONFIG_NAME_INVALID")
    else
      var _ :- ValidateServerConfig(Prop(config, "server"));
      var _ :- ValidatePathConfig(Prop(config, "paths"));
      var _ :- ValidateDeployOptions(Prop(config, "options"));
      Ok(config)
  }

  /** `configs.map(validateEnvironmentConfig)`: the first element that fails decides the
      error; when none fails the elements come back as they are. */
  function ValidateEach(configs: seq<JsValue>): (r: Result<seq<JsValue>, Error>)
    ensures r.Ok? <==> forall i :: 0 <= i < |configs| ==> EnvironmentAcceptable(configs[i])
    ensures r.Ok? ==> r.value == configs
    ensures r.Err? ==> exists i :: 0 <= i < |configs|
                        && ValidateEnvironmentConfig(configs[i]) == Err(r.error)
                        && forall j :: 0 <= j < i ==> EnvironmentAcceptable(configs[j])
    decreases |configs|
  {
    if |configs| == 0 then Ok([])
    else
      var first :- ValidateEnvironmentConfig(configs[0]);
      var rest :- ValidateEach(configs[1..]);
      assert configs == [configs[0]] + configs[1..];
      Ok([first] + rest)
  }

  /** The `name` of each validated configuration. */
  function Names(configs: seq<JsValue>): (names: seq<JsValue>)
    ensures |names| == |configs|
    ensures forall i :: 0 <= i < |configs| ==> names[i] == Prop(configs[i], "name")
  {
    seq(|configs|, i requires 0 <= i < |configs| => Prop(configs[i], "name"))
  }

  /** `new Set(xs)` */
  function ElementSet<T>(xs: seq<T>): set<T> {
    set i | 0 <= i < |xs| :: xs[i]
  }

  ghost predicate Distinct<T>(xs: seq<T>) {
    forall i, j :: 0 <= i < j < |xs| ==> xs[i] != xs[j]
  }

  /** `validateEnvironmentConfigs`: an array, not empty, every element valid, and no two
      with the same name, in that order. */
  function ValidateEnvironmentConfigs(configs: JsValue): (r: Result<seq<JsValue>, Error>)
    ensures r.Ok? <==> configs.Arr? && |configs.items| > 0
                       && (forall i :: 0 <= i < |configs.items| ==> EnvironmentAcceptable(configs.items[i]))
                       && Distinct(Names(configs.items))
    ensures r.Ok? ==> r.value == configs.items
    ensures !configs.Arr? ==>
              r.Err? && r.error.cls == ConfigError && r.error.code == Some("CONFIGS_NOT_ARRAY")
    ensures configs.Arr? && |configs.items| == 0 ==>
              r.Err? && r.error.cls == ConfigError && r.error.code == Some("CONFIGS_EMPTY")
    ensures configs.Arr? && |configs.items| > 0 && ValidateEach(configs.items).Err? ==>
              r == Err(ValidateEach(configs.items).error)
    ensures configs.Arr? && |configs.items| > 0
            && (forall i :: 0 <= i < |configs.items| ==> EnvironmentAcceptable(configs.items[i]))
            && !Distinct(Names(configs.items)) ==>
              r.Err? && r.error.cls == ValidationError && r.error.code == Some("CONFIG_NAMES_DUPLICATE")
  {
    if !configs.Arr? then ConfigFailure("配置必须是数组格式", "CONFIGS_NOT_ARRAY")
    else if |configs.items| == 0 then ConfigFailure("至少需要一个环境配置", "CONFIGS_EMPTY")
    else
      var validated :- ValidateEach(configs.items);
      var names := Names(validated);
      SetSizeDetectsDuplicates(names);
      if |names| != |ElementSet(names)| then Invalid("环境名称必须唯一", "CONFIG_NAMES_DUPLICATE")
      else Ok(validated)
  }

  // ---------------------------------------------------------------------------------
  // Properties

  /** A set built from a list has as many elements as the list exactly when no element
      repeats. */
  lemma {:induction false} SetSizeDetectsDuplicates<T>(xs: seq<T>)
    ensures |ElementSet(xs)| <= |xs|
    ensures |ElementSet(xs)| == |xs| <==> Distinct(xs)
    decreases |xs|
  {
    if |xs| == 0 {
      assert ElementSet(xs) == {};
    } else {
      var init, last := xs[..|xs| - 1], xs[|xs| - 1];
      SetSizeDetectsDuplicates(init);
      assert ElementSet(xs) == ElementSet(init) + {last} by {
        forall x | x in ElementSet(xs) ensures x in ElementSet(init) + {last} {
          var i :| 0 <= i < |xs| && xs[i] == x;
          if i < |xs| - 1 { assert init[i] == x; }
        }
        forall x | x in ElementSet(init) ensures x in ElementSet(xs) {
          var i :| 0 <= i < |init| && init[i] == x;
          assert xs[i] == x;
        }
      }
      if last in ElementSet(init) {
        var k :| 0 <= k < |init| && init[k] == last;
        assert xs[k] == xs[|xs| - 1];
        assert !Distinct(xs);
      } else {
        assert |ElementSet(xs)| == |ElementSet(init)| + 1;
        if Distinct(init) {
          forall i, j | 0 <= i < j < |xs| ensures xs[i] != xs[j] {
            if j == |xs| - 1 {
              assert xs[i] == init[i];
            } else {
              assert xs[i] == init[i] && xs[j] == init[j];
            }
          }
        } else {
          var i, j :| 0 <= i < j < |init| && init[i] == init[j];
          assert xs[i] == xs[j];
        }
      }
    }
  }

  /** The name is checked before anything else in the object: a configuration with an
      empty or non-string name is rejected for that, whatever its other fields hold. */
  lemma NameCheckedFirst(config: JsValue)
    requires Truthy(config) && !IsNonEmptyString(Prop(config, "name"))
    ensures ValidateEnvironmentConfig(config).Err?
    ensures ValidateEnvironmentConfig(config).error.code == Some("CONFIG_NAME_INVALID")
  {
  }

  /** The server checks run in the order host, port, userName, authentication, key type:
      the first one that fails names the error. */
  lemma {:induction false} ServerCheckOrder(server: JsValue)
    requires Truthy(server)
    ensures !IsNonEmptyString(Prop(server, "host")) ==>
              ValidateServerConfig(server).error.code == Some("SERVER_HOST_INVALID")
    ensures IsNonEmptyString(Prop(server, "host")) && !PortAcceptable(Prop(server, "port")) ==>
              ValidateServerConfig(server).error.code == Some("SERVER_PORT_INVALID")
    ensures IsNonEmptyString(Prop(server, "host")) && PortAcceptable(Prop(server, "port"))
            && !IsNonEmptyString(Prop(server, "userName")) ==>
              ValidateServerConfig(server).error.code == Some("SERVER_USER_INVALID")
    ensures IsNonEmptyString(Prop(server, "host")) && PortAcceptable(Prop(server, "port"))
            && IsNonEmptyString(Prop(server, "userName"))
            && !Truthy(Prop(server, "password")) && !Truthy(Prop(server, "sshKey")) ==>
              ValidateServerConfig(server).error.code == Some("SERVER_AUTH_MISSING")
    ensures IsNonEmptyString(Prop(server, "host")) && PortAcceptable(Prop(server, "port"))
            && IsNonEmptyString(Prop(server, "userName"))
            && Truthy(Prop(server, "sshKey")) && TypeOf(Prop(server, "sshKey")) != "string" ==>
              ValidateServerConfig(server).error.code == Some("SERVER_SSH_KEY_INVALID")
  {
    NonEmptyStringIsTruthyString(Prop(server, "host"));
    NonEmptyStringIsTruthyString(Prop(server, "userName"));
  }

  /** The path checks run in the order localDist, remotePath, projectName. */
  lemma PathCheckOrder(paths: JsValue)
    requires Truthy(paths)
    ensures !IsNonEmptyString(Prop(paths, "localDist")) ==>
              ValidatePathConfig(paths).error.code == Some("PATH_LOCAL_INVALID")
    ensures IsNonEmptyString(Prop(paths, "localDist")) && !IsNonEmptyString(Prop(paths, "remotePath")) ==>
              ValidatePathConfig(paths).error.code == Some("PATH_REMOTE_INVALID")
    ensures IsNonEmptyString(Prop(paths, "localDist")) && IsNonEmptyString(Prop(paths, "remotePath"))
            && !IsNonEmptyString(Prop(paths, "projectName")) ==>
              ValidatePathConfig(paths).error.code == Some("PATH_PROJECT_NAME_INVALID")
  {
  }

  /** The duplicate-name code is not one a single configuration is rejected with. */
  lemma DuplicateCodeIsNotElementCode()
    ensures !ElementCode("CONFIG_NAMES_DUPLICATE")
  {
    var d := "CONFIG_NAMES_DUPLICATE";
    assert d[..7][0] == 'C' && d[..5][0] == 'C' && d[..8][0] == 'C';
  }

  /** Duplicate names are reported only once every element has passed on its own: an
      invalid element wins over a repeated name. */
  lemma {:induction false} ElementErrorsBeforeDuplicates(configs: JsValue, k: nat)
    requires configs.Arr? && k < |configs.items|
    requires !EnvironmentAcceptable(configs.items[k])
    ensures ValidateEnvironmentConfigs(configs).Err?
    ensures ValidateEnvironmentConfigs(configs).error.code != Some("CONFIG_NAMES_DUPLICATE")
  {
    var r := ValidateEach(configs.items);
    assert r.Err?;
    var i :| 0 <= i < |configs.items| && ValidateEnvironmentConfig(configs.items[i]) == Err(r.error);
    assert ElementCode(r.error.code.value);
    assert ValidateEnvironmentConfigs(configs) == Err(r.error);
    DuplicateCodeIsNotElementCode();
  }

  lemma TypedServerAccepted(s: ServerConfig)
    ensures ServerAcceptable(ServerToJs(s)) <==>
              && s.host != ""
              && (s.port.None? || 1 <= s.port.value <= 65535)
              && s.userName != ""
              && ((s.password.Some? && s.password.value != "") || (s.sshKey.Some? && s.sshKey.value != ""))
  {
    var v := ServerToJs(s);
    assert PortAcceptable(Prop(v, "port")) <==> (s.port.None? || 1 <= s.port.value <= 65535);
  }

  lemma TypedPathsAccepted(p: PathConfig)
    ensures PathsAcceptable(PathsToJs(p)) <==>
              p.localDist != "" && p.remotePath != "" && p.projectName != ""
  {
  }

  lemma TypedOptionsAccepted(o: DeployOptions)
    ensures OptionsAcceptable(OptionsToJs(o))
  {
  }

  /** Acceptance of a configuration written with the declared types: every required
      string non-empty, a port in range, and a password or a key. */
  lemma {:induction false} TypedConfigAccepted(c: EnvironmentConfig)
    ensures ValidateEnvironmentConfig(EnvironmentToJs(c)).Ok? <==>
              && c.name != ""
              && c.server.host != ""
              && (c.server.port.None? || 1 <= c.server.port.value <= 65535)
              && c.server.userName != ""
              && ((c.server.password.Some? && c.server.password.value != "")
                  || (c.server.sshKey.Some? && c.server.sshKey.value != ""))
              && c.paths.localDist != "" && c.paths.remotePath != "" && c.paths.projectName != ""
  {
    TypedServerAccepted(c.server);
    TypedPathsAccepted(c.paths);
    TypedOptionsAccepted(c.options);
  }
}
