/** The configuration records of src/types/config.ts, and the JavaScript objects they
    stand for once a configuration file has been loaded. The validators work on the
    loaded objects (`JsValue`), since a configuration file is not checked against these
    types when it is imported. */
module ConfigTypes {
  import opened Wrappers
  import opened JsValues

  datatype ServerConfig = ServerConfig(
    host: string,
    port: Option<int>,
    userName: string,
    password: Option<string>,
    sshKey: Option<string>)

  datatype PathConfig = PathConfig(localDist: string, remotePath: string, projectName: string)

  datatype DeployOptions = DeployOptions(
    preDeploy: seq<string>,
    postDeploy: seq<string>,
    backup: Option<bool>,
    dichromatic: Option<bool>)

  datatype EnvironmentConfig = EnvironmentConfig(
    name: string,
    server: ServerConfig,
    paths: PathConfig,
    options: DeployOptions)

  /** An optional property: absent keys are not present in the object at all. */
  function WithOptional(m: map<string, JsValue>, key: string, v: Option<JsValue>): (r: map<string, JsValue>)
    ensures v.Some? ==> r == m[key := v.value]
    ensures v.None? ==> r == m
  {
    if v.Some? then m[key := v.value] else m
  }

  function StrArray(xs: seq<string>): (r: JsValue)
    ensures r.Arr? && |r.items| == |xs|
    ensures forall i :: 0 <= i < |xs| ==> r.items[i] == Str(xs[i])
  {
    Arr(seq(|xs|, i requires 0 <= i < |xs| => Str(xs[i])))
  }

  function ServerToJs(s: ServerConfig): (v: JsValue)
    ensures v.Obj?
    ensures Prop(v, "host") == Str(s.host) && Prop(v, "userName") == Str(s.userName)
    ensures Prop(v, "port") == (if s.port.Some? then Num(s.port.value as real) else Undefined)
    ensures Prop(v, "password") == (if s.password.Some? then Str(s.password.value) else Undefined)
    ensures Prop(v, "sshKey") == (if s.sshKey.Some? then Str(s.sshKey.value) else Undefined)
    ensures !HasOwn(v, "username")
    ensures v.fields.Keys == {"host", "userName"} + (if s.port.Some? then {"port"} else {})
                             + (if s.password.Some? then {"password"} else {})
                             + (if s.sshKey.Some? then {"sshKey"} else {})
  {
    var m := map["host" := Str(s.host), "userName" := Str(s.userName)];
    var m := WithOptional(m, "port", if s.port.Some? then Some(Num(s.port.value as real)) else None);
    var m := WithOptional(m, "password", if s.password.Some? then Some(Str(s.password.value)) else None);
    var m := WithOptional(m, "sshKey", if s.sshKey.Some? then Some(Str(s.sshKey.value)) else None);
    Obj(m)
  }

  function PathsToJs(p: PathConfig): (v: JsValue)
    ensures v.Obj?
    ensures Prop(v, "localDist") == Str(p.localDist) && Prop(v, "remotePath") == Str(p.remotePath)
    ensures Prop(v, "projectName") == Str(p.projectName)
  {
    Obj(map["localDist" := Str(p.localDist), "remotePath" := Str(p.remotePath), "projectName" := Str(p.projectName)])
  }

  function OptionsToJs(o: DeployOptions): (v: JsValue)
    ensures v.Obj?
    ensures Prop(v, "preDeploy") == StrArray(o.preDeploy) && Prop(v, "postDeploy") == StrArray(o.postDeploy)
    ensures Prop(v, "backup") == (if o.backup.Some? then Bool(o.backup.value) else Undefined)
    ensures Prop(v, "dichromatic") == (if o.dichromatic.Some? then Bool(o.dichromatic.value) else Undefined)
  {
    var m := map["preDeploy" := StrArray(o.preDeploy), "postDeploy" := StrArray(o.postDeploy)];
    var m := WithOptional(m, "backup", if o.backup.Some? then Some(Bool(o.backup.value)) else None);
    var m := WithOptional(m, "dichromatic", if o.dichromatic.Some? then Some(Bool(o.dichromatic.value)) else None);
    Obj(m)
  }

  function EnvironmentToJs(c: EnvironmentConfig): (v: JsValue)
    ensures v.Obj?
    ensures Prop(v, "name") == Str(c.name) && Prop(v, "server") == ServerToJs(c.server)
    ensures Prop(v, "paths") == PathsToJs(c.paths) && Prop(v, "options") == OptionsToJs(c.options)
  {
    Obj(map["name" := Str(c.name), "server" := ServerToJs(c.server), "paths" := PathsToJs(c.paths),
            "options" := OptionsToJs(c.options)])
  }
}
