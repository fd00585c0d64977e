/** The checks of `ConfigManager` in src/utils/config.ts: `validateConfig`, which collects
    one message per empty field and throws them all at once, and `getSetting`, which
    follows a dotted key into the parsed settings file. The file read is left to the
    caller: `GetSetting` receives the parsed JSON value. */
module ConfigManager {
  import opened Wrappers
  import opened Text
  import opened JsValues
  import opened Errors
  import ConfigTypes
  import ConfigValidator

  const FailurePrefix: string := "配置验证失败:\n- "
  const Separator: string := "\n- "

  const HostMessage: string := "服务器地址 (server.host) 不能为空"
  const UsernameMessage: string := "用户名 (server.username) 不能为空"
  const PasswordMessage: string := "密码 (server.password) 不能为空"
  const RemotePathMessage: string := "远程路径 (paths.remotePath) 不能为空"
  const ProjectNameMessage: string := "项目名称 (paths.projectName) 不能为空"

  predicate Nullish(v: JsValue) {
    v == Undefined || v == Null
  }

  /** The TypeError JavaScript throws when a property of `undefined` or `null` is read. */
  function ReadError(v: JsValue, key: string): Error
    requires Nullish(v)
  {
    NewTypeError("Cannot read properties of " + (if v == Null then "null" else "undefined")
                 + " (reading '" + key + "')")
  }

  /** A required field: the object it lives in, its key and the message pushed when empty. */
  datatype Requirement = Requirement(inPaths: bool, key: string, message: string)

  /** The five checks, in the order they are made. */
  const Requirements: seq<Requirement> := [
    Requirement(false, "host", HostMessage),
    Requirement(false, "username", UsernameMessage),
    Requirement(false, "password", PasswordMessage),
    Requirement(true, "remotePath", RemotePathMessage),
    Requirement(true, "projectName", ProjectNameMessage)
  ]

  predicate Satisfied(config: JsValue, q: Requirement) {
    Truthy(Prop(Prop(config, if q.inPaths then "paths" else "server"), q.key))
  }

  /** The messages of the requirements a configuration does not meet, in order. */
  function Unmet(config: JsValue, qs: seq<Requirement>): (msgs: seq<string>)
    ensures |msgs| <= |qs|
    decreases |qs|
  {
    if |qs| == 0 then []
    else
      var last := qs[|qs| - 1];
      Unmet(config, qs[..|qs| - 1]) + (if Satisfied(config, last) then [] else [last.message])
  }

  lemma {:induction false} UnmetOnlyFrom(config: JsValue, qs: seq<Requirement>, m: string)
    requires m in Unmet(config, qs)
    ensures exists k :: 0 <= k < |qs| && qs[k].message == m
    decreases |qs|
  {
    var init, last := qs[..|qs| - 1], qs[|qs| - 1];
    if m in Unmet(config, init) {
      UnmetOnlyFrom(config, init, m);
      var k :| 0 <= k < |init| && init[k].message == m;
      assert qs[k].message == m;
    }
  }

  /** A message is collected exactly when its requirement is not met. */
  lemma {:induction false} UnmetMembership(config: JsValue, qs: seq<Requirement>, q: Requirement)
    requires q in qs
    requires forall i, j :: 0 <= i < j < |qs| ==> qs[i].message != qs[j].message
    ensures q.message in Unmet(config, qs) <==> !Satisfied(config, q)
    decreases |qs|
  {
    var init, last := qs[..|qs| - 1], qs[|qs| - 1];
    if last == q {
      if q.message in Unmet(config, init) {
        UnmetOnlyFrom(config, init, q.message);
        assert false;
      }
    } else {
      var k :| 0 <= k < |qs| && qs[k] == q;
      assert k < |qs| - 1 && init[k] == q;
      UnmetMembership(config, init, q);
      assert q.message != last.message;
    }
  }

  /** The first three checks of `validateConfig`, on the server section. */
  method ServerMessages(config: JsValue, server: JsValue) returns (errors: seq<string>)
    requires server == Prop(config, "server")
    ensures errors == Unmet(config, Requirements[..3])
  {
    ghost var qs := Requirements;
    errors := [];
    if !Truthy(Prop(server, "host")) {
      errors := errors + [HostMessage];
    }
    assert errors == Unmet(config, qs[..1]) by { assert qs[..1][..0] == []; }
    if !Truthy(Prop(server, "username")) {
      errors := errors + [UsernameMessage];
    }
    assert errors == Unmet(config, qs[..2]) by { assert qs[..2][..1] == qs[..1]; }
    if !Truthy(Prop(server, "password")) {
      errors := errors + [PasswordMessage];
    }
    assert qs[..3][..2] == qs[..2];
  }

  /** The last two checks of `validateConfig`, on the paths section, added to the
      server's messages. */
  method PathMessages(config: JsValue, paths: JsValue, serverErrors: seq<string>) returns (errors: seq<string>)
    requires paths == Prop(config, "paths") && serverErrors == Unmet(config, Requirements[..3])
    ensures errors == Unmet(config, Requirements)
  {
    ghost var qs := Requirements;
    errors := serverErrors;
    if !Truthy(Prop(paths, "remotePath")) {
      errors := errors + [RemotePathMessage];
    }
    assert errors == Unmet(config, qs[..4]) by { assert qs[..4][..3] == qs[..3]; }
    if !Truthy(Prop(paths, "projectName")) {
      errors := errors + [ProjectNameMessage];
    }
    assert qs[..5] == qs && qs[..5][..4] == qs[..4];
  }

  /** `validateConfig`. A missing configuration, server section or paths section makes a
      property read throw a TypeError before any message can be reported. */
  method ValidateConfig(config: JsValue) returns (r: Result<Unit, Error>)
    ensures Nullish(config) ==> r == Err(ReadError(config, "server"))
    ensures !Nullish(config) && Nullish(Prop(config, "server")) ==>
              r == Err(ReadError(Prop(config, "server"), "host"))
    ensures !Nullish(config) && !Nullish(Prop(config, "server")) && Nullish(Prop(config, "paths")) ==>
              r == Err(ReadError(Prop(config, "paths"), "remotePath"))
    ensures !Nullish(config) && !Nullish(Prop(config, "server")) && !Nullish(Prop(config, "paths")) ==>
              && (r.Ok? <==> Unmet(config, Requirements) == [])
              && (r.Err? ==> r.error == NewPlainError(FailurePrefix + Join(Unmet(config, Requirements), Separator)))
  {
    if Nullish(config) {
      return Err(ReadError(config, "server"));
    }
    var server := Prop(config, "server");
    if Nullish(server) {
      return Err(ReadError(server, "host"));
    }
    var errors := ServerMessages(config, server);
    var paths := Prop(config, "paths");
    if Nullish(paths) {
      return Err(ReadError(paths, "remotePath"));
    }
    errors := PathMessages(config, paths, errors);
    if |errors| > 0 {
      return Err(NewPlainError(FailurePrefix + Join(errors, Separator)));
    }
    return Ok(Unit);
  }

  /** One message per empty field: the message for a field is reported exactly when that
      field is empty. */
  lemma MessagePerEmptyField(config: JsValue)
    ensures HostMessage in Unmet(config, Requirements) <==> !Truthy(Prop(Prop(config, "server"), "host"))
    ensures UsernameMessage in Unmet(config, Requirements) <==> !Truthy(Prop(Prop(config, "server"), "username"))
    ensures PasswordMessage in Unmet(config, Requirements) <==> !Truthy(Prop(Prop(config, "server"), "password"))
    ensures RemotePathMessage in Unmet(config, Requirements) <==> !Truthy(Prop(Prop(config, "paths"), "remotePath"))
    ensures ProjectNameMessage in Unmet(config, Requirements) <==> !Truthy(Prop(Prop(config, "paths"), "projectName"))
  {
    var qs := Requirements;
    assert forall i, j :: 0 <= i < j < |qs| ==> qs[i].message != qs[j].message;
    UnmetMembership(config, qs, qs[0]);
    UnmetMembership(config, qs, qs[1]);
    UnmetMembership(config, qs, qs[2]);
    UnmetMembership(config, qs, qs[3]);
    UnmetMembership(config, qs, qs[4]);
  }

  /** A configuration written with the declared field `userName` has no `username`, so
      this validator always reports the user name as missing, whatever the other fields
      hold. */
  lemma DeclaredUserNameIsNeverSeen(c: ConfigTypes.EnvironmentConfig)
    ensures UsernameMessage in Unmet(ConfigTypes.EnvironmentToJs(c), Requirements)
    ensures Unmet(ConfigTypes.EnvironmentToJs(c), Requirements) != []
  {
    MessagePerEmptyField(ConfigTypes.EnvironmentToJs(c));
  }

  /** The password is required here even when a key is given, although the configuration
      validator accepts a key in its place. */
  lemma {:induction false} KeyWithoutPasswordRejectedHere(config: JsValue)
    requires ConfigValidator.EnvironmentAcceptable(config)
    requires !Truthy(Prop(Prop(config, "server"), "password"))
    ensures Truthy(Prop(Prop(config, "server"), "sshKey"))
    ensures PasswordMessage in Unmet(config, Requirements)
  {
    MessagePerEmptyField(config);
  }

  // ---------------------------------------------------------------------------------
  // getSetting

  /** One segment of the dotted key: descend when the current value is a non-null object
      (or array) that has the property; otherwise stay. */
  function Descend(v: JsValue, prop: string): JsValue {
    if Truthy(v) && TypeOf(v) == "object" && HasOwn(v, prop) then Prop(v, prop) else v
  }

  function Lookup(v: JsValue, props: seq<string>): JsValue
    decreases |props|
  {
    if |props| == 0 then v else Lookup(Descend(v, props[0]), props[1..])
  }

  /** `getSetting(key)` on the parsed settings `data`. */
  method GetSetting(data: JsValue, key: string) returns (result: JsValue)
    ensures result == Lookup(data, Split(key, '.'))
  {
    var properties := Split(key, '.');
    result := data;
    for k := 0 to |properties|
      invariant Lookup(data, properties) == Lookup(result, properties[k..])
    {
      assert properties[k..][1..] == properties[k + 1..];
      if Truthy(result) && TypeOf(result) == "object" && HasOwn(result, properties[k]) {
        result := Prop(result, properties[k]);
      }
    }
  }

  /** A segment the current value does not have is skipped; the later ones are still
      tried from the same value. */
  lemma AbsentSegmentSkipped(v: JsValue, prop: string, rest: seq<string>)
    requires !HasOwn(v, prop)
    ensures Lookup(v, [prop] + rest) == Lookup(v, rest)
  {
    assert ([prop] + rest)[1..] == rest;
  }

  /** Once the current value is null or not an object, no segment changes it. */
  lemma {:induction false} NonObjectIsFinal(v: JsValue, props: seq<string>)
    requires !Truthy(v) || TypeOf(v) != "object"
    ensures Lookup(v, props) == v
    decreases |props|
  {
    if |props| > 0 {
      NonObjectIsFinal(v, props[1..]);
    }
  }

  /** A key without dots reads one property. */
  lemma {:induction false} PlainKeyReadsOneProperty(data: JsValue, key: string)
    requires '.' !in key
    ensures Lookup(data, Split(key, '.')) == Descend(data, key)
  {
    SplitWithoutSeparator(key, '.');
  }

  lemma {:induction false} SplitWithoutSeparator(s: string, c: char)
    requires c !in s
    ensures Split(s, c) == [s]
    decreases |s|
  {
    if |s| > 0 {
      SplitWithoutSeparator(s[1..], c);
      assert s == [s[0]] + s[1..];
    }
  }

  /** The settings object holding `leaf` under the names of `path`, one level per name. */
  function Nested(path: seq<string>, leaf: JsValue): JsValue
    decreases |path|
  {
    if |path| == 0 then leaf else Obj(map[path[0] := Nested(path[1..], leaf)])
  }

  /** Following the names of `path` through the object nested along them reaches the
      leaf. */
  lemma {:induction false} LookupNested(path: seq<string>, leaf: JsValue)
    ensures Lookup(Nested(path, leaf), path) == leaf
    decreases |path|
  {
    if |path| > 0 {
      assert Descend(Nested(path, leaf), path[0]) == Nested(path[1..], leaf);
      LookupNested(path[1..], leaf);
    }
  }

  /** Splitting the dotted key made of names without dots gives the names back. */
  lemma {:induction false} SplitJoinedKey(path: seq<string>)
    requires |path| > 0
    requires forall i :: 0 <= i < |path| ==> '.' !in path[i]
    ensures Split(Join(path, "."), '.') == path
    decreases |path|
  {
    if |path| == 1 {
      SplitWithoutSeparator(path[0], '.');
    } else {
      SplitJoinedKey(path[1..]);
      assert Join(path, ".") == path[0] + ['.'] + Join(path[1..], ".");
      SplitAtFirst(path[0], Join(path[1..], "."), '.');
      assert path == [path[0]] + path[1..];
    }
  }

  /** A dotted key such as `user.name`, of any number of names, reaches the value nested
      under those names in turn. */
  lemma DottedKeyReachesNested(path: seq<string>, leaf: JsValue)
    requires |path| > 0
    requires forall i :: 0 <= i < |path| ==> '.' !in path[i]
    ensures Lookup(Nested(path, leaf), Split(Join(path, "."), '.')) == leaf
  {
    SplitJoinedKey(path);
    LookupNested(path, leaf);
  }

  /** Splitting at the first separator: the text before it is the first piece. */
  lemma {:induction false} SplitAtFirst(a: string, b: string, c: char)
    requires c !in a
    ensures Split(a + [c] + b, c) == [a] + Split(b, c)
    decreases |a|
  {
    var s := a + [c] + b;
    if |a| == 0 {
      assert s == [c] + b && s[1..] == b;
      assert Split(s, c) == [""] + Split(s[1..], c);
    } else {
      assert s[0] == a[0] && s[0] != c;
      assert s[1..] == a[1..] + [c] + b;
      SplitAtFirst(a[1..], b, c);
      var rest := Split(s[1..], c);
      assert rest == [a[1..]] + Split(b, c);
      assert Split(s, c) == [[s[0]] + rest[0]] + rest[1..];
      assert rest[1..] == Split(b, c);
      assert [s[0]] + rest[0] == a;
    }
  }
}
