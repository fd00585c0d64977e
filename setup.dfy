/** The install script of src/scripts/setup.ts: locating the project root, and merging the
    five deploy scripts into the `scripts` map of the project's package manifest without
    overwriting an entry that is already there. The filesystem, the environment and the
    manifest's text are parameters: whether a file exists, the directory `resolve(d, '..')`
    names, the value of `INIT_CWD`, and the value `JSON.parse` returns. */
module Setup {
  import opened Wrappers
  import opened Text
  import opened JsValues
  import opened PathUtils

  // ---------------------------------------------------------------------------------
  // The project root
  // ---------------------------------------------------------------------------------

  /** How many directories the upward search for a manifest looks at. */
  const SearchLimit: nat := 10

  /** `dir` with `parent` applied `n` times: the `n`-th directory of the upward search. */
  function Ancestor(dir: string, n: nat, parent: string -> string): string
    decreases n
  {
    if n == 0 then dir else Ancestor(parent(dir), n - 1, parent)
  }

  /** The upward search of `getProjectRoot`, at most `steps` directories starting from `dir`:
      the first one holding a manifest, or `None` when it gives up because the steps ran out
      or `dir` is its own parent (the filesystem root). */
  function SearchUp(dir: string, steps: nat, hasManifest: string -> bool, parent: string -> string): Option<string>
    decreases steps
  {
    if steps == 0 then None
    else if hasManifest(dir) then Some(dir)
    else if parent(dir) == dir then None
    else SearchUp(parent(dir), steps - 1, hasManifest, parent)
  }

  /** A directory the search returns is among the first `steps` ancestors of `dir` and holds
      a manifest. */
  lemma {:induction false} SearchUpFindsManifest(dir: string, steps: nat, hasManifest: string -> bool, parent: string -> string)
    ensures SearchUp(dir, steps, hasManifest, parent).Some? ==>
      var found := SearchUp(dir, steps, hasManifest, parent).value;
      hasManifest(found) && exists i :: 0 <= i < steps && found == Ancestor(dir, i, parent)
    decreases steps
  {
    if steps > 0 && !hasManifest(dir) && parent(dir) != dir {
      SearchUpFindsManifest(parent(dir), steps - 1, hasManifest, parent);
      if SearchUp(dir, steps, hasManifest, parent).Some? {
        var found := SearchUp(dir, steps, hasManifest, parent).value;
        var i :| 0 <= i < steps - 1 && found == Ancestor(parent(dir), i, parent);
        assert found == Ancestor(dir, i + 1, parent);
      }
    } else if steps > 0 && hasManifest(dir) {
      assert dir == Ancestor(dir, 0, parent);
    }
  }

  /** The search misses nothing: when the `i`-th ancestor (`i < steps`) is the first to hold a
      manifest and no earlier one is the filesystem root, the search returns it. */
  lemma {:induction false} SearchUpFindsFirst(dir: string, steps: nat, i: nat, hasManifest: string -> bool, parent: string -> string)
    requires i < steps
    requires hasManifest(Ancestor(dir, i, parent))
    requires forall j :: 0 <= j < i ==>
      !hasManifest(Ancestor(dir, j, parent)) && parent(Ancestor(dir, j, parent)) != Ancestor(dir, j, parent)
    ensures SearchUp(dir, steps, hasManifest, parent) == Some(Ancestor(dir, i, parent))
    decreases i
  {
    if i > 0 {
      assert Ancestor(dir, 0, parent) == dir;
      forall j | 0 <= j < i - 1
        ensures !hasManifest(Ancestor(parent(dir), j, parent))
        ensures parent(Ancestor(parent(dir), j, parent)) != Ancestor(parent(dir), j, parent)
      {
        assert Ancestor(dir, j + 1, parent) == Ancestor(parent(dir), j, parent);
      }
      SearchUpFindsFirst(parent(dir), steps - 1, i - 1, hasManifest, parent);
    }
  }

  /** `getProjectRoot` as a function: a set, non-empty `INIT_CWD` wins; then a working
      directory containing `node_modules` is cut before its first occurrence; then the upward
      search; and the working directory when that finds nothing. */
  function ProjectRoot(initCwd: Option<string>, cwd: string, hasManifest: string -> bool, parent: string -> string): (root: string)
    ensures initCwd.Some? && initCwd.value != "" ==> root == initCwd.value
    ensures (initCwd.None? || initCwd.value == "") && Contains(cwd, "node_modules") ==>
      root == PrefixBefore(cwd, "node_modules") && StartsWith(cwd[|root|..], "node_modules")
    ensures (initCwd.None? || initCwd.value == "") && !Contains(cwd, "node_modules") ==>
      (root == cwd || hasManifest(root))
  {
    if initCwd.Some? && initCwd.value != "" then initCwd.value
    else if Contains(cwd, "node_modules") then PrefixBefore(cwd, "node_modules")
    else
      SearchUpFindsManifest(cwd, SearchLimit, hasManifest, parent);
      match SearchUp(cwd, SearchLimit, hasManifest, parent)
      case Some(found) => found
      case None => cwd
  }

  /** `getProjectRoot`: the upward search is the source's counted loop, which returns on the
      first directory holding a manifest and stops early at the filesystem root. */
  method GetProjectRoot(initCwd: Option<string>, cwd: string, hasManifest: string -> bool, parent: string -> string)
    returns (root: string)
    ensures root == ProjectRoot(initCwd, cwd, hasManifest, parent)
  {
    if initCwd.Some? && initCwd.value != "" {
      return initCwd.value;
    }
    if Contains(cwd, "node_modules") {
      return PrefixBefore(cwd, "node_modules");
    }
    var searchDir := cwd;
    var i := 0;
    while i < SearchLimit
      invariant 0 <= i <= SearchLimit
      invariant SearchUp(cwd, SearchLimit, hasManifest, parent) == SearchUp(searchDir, SearchLimit - i, hasManifest, parent)
    {
      if hasManifest(searchDir) {
        return searchDir;
      }
      var parentDir := parent(searchDir);
      if parentDir == searchDir {
        break;
      }
      searchDir := parentDir;
      i := i + 1;
    }
    return cwd;
  }

  /** The project root the script works with: `getProjectRoot()` with every backslash
      turned into a forward slash. */
  function ScriptRoot(initCwd: Option<string>, cwd: string, hasManifest: string -> bool, parent: string -> string): string {
    ToUnixPath(ProjectRoot(initCwd, cwd, hasManifest, parent))
  }

  /** The script's project root holds no backslash and keeps the length of the found root. */
  lemma ScriptRootHasNoBackslash(initCwd: Option<string>, cwd: string, hasManifest: string -> bool, parent: string -> string)
    ensures '\\' !in ScriptRoot(initCwd, cwd, hasManifest, parent)
    ensures |ScriptRoot(initCwd, cwd, hasManifest, parent)| == |ProjectRoot(initCwd, cwd, hasManifest, parent)|
  {
    ToUnixPathProperties(ProjectRoot(initCwd, cwd, hasManifest, parent));
  }

  // ---------------------------------------------------------------------------------
  // The script merge
  // ---------------------------------------------------------------------------------

  /** The deploy scripts, in declaration order: script name and the command it runs. */
  const DeployScripts: seq<(string, string)> := [
    ("deploy", "view-deploy deploy"),
    ("deploy:init", "view-deploy init"),
    ("deploy:test", "view-deploy test"),
    ("deploy:config", "view-deploy config"),
    ("deploy:reset", "view-deploy reset")
  ]

  /** The script names a table holds. */
  function Names(table: seq<(string, string)>): set<string> {
    set i | 0 <= i < |table| :: table[i].0
  }

  /** No name twice, and every command non-empty (so every added entry is truthy). */
  predicate WellFormedTable(table: seq<(string, string)>) {
    (forall i, j :: 0 <= i < j < |table| ==> table[i].0 != table[j].0) &&
    (forall i :: 0 <= i < |table| ==> table[i].1 != "")
  }

  lemma DeployScriptsWellFormed()
    ensures WellFormedTable(DeployScripts)
  {
  }

  /** `scripts[name]` on the scripts object: `undefined` when the name is absent. */
  function Lookup(m: map<string, JsValue>, name: string): JsValue {
    if name in m then m[name] else Undefined
  }

  /** The merge as a function: the scripts map after the table has been walked in order,
      setting every name whose entry is falsy, and how many names were set. */
  function Merge(m: map<string, JsValue>, table: seq<(string, string)>): (map<string, JsValue>, nat)
    decreases |table|
  {
    if |table| == 0 then (m, 0)
    else if Truthy(Lookup(m, table[0].0)) then Merge(m, table[1..])
    else
      var r := Merge(m[table[0].0 := Str(table[0].1)], table[1..]);
      (r.0, r.1 + 1)
  }

  /** The names of the table whose entries are falsy in `m`: the ones the merge adds. */
  function Missing(m: map<string, JsValue>, table: seq<(string, string)>): set<string> {
    set i | 0 <= i < |table| && !Truthy(Lookup(m, table[i].0)) :: table[i].0
  }

  /** Entries outside the table are left alone. */
  lemma {:induction false} MergeKeepsOtherNames(m: map<string, JsValue>, table: seq<(string, string)>, k: string)
    requires k !in Names(table)
    ensures k in Merge(m, table).0 <==> k in m
    ensures Lookup(Merge(m, table).0, k) == Lookup(m, k)
    decreases |table|
  {
    if |table| > 0 {
      assert k != table[0].0;
      assert Names(table[1..]) <= Names(table) by {
        forall n | n in Names(table[1..]) ensures n in Names(table) {
          var i :| 0 <= i < |table[1..]| && n == table[1..][i].0;
          assert n == table[i + 1].0;
        }
      }
      if Truthy(Lookup(m, table[0].0)) {
        MergeKeepsOtherNames(m, table[1..], k);
      } else {
        MergeKeepsOtherNames(m[table[0].0 := Str(table[0].1)], table[1..], k);
      }
    }
  }

  /** An entry that is already truthy is never overwritten. */
  lemma {:induction false} MergeKeepsTruthy(m: map<string, JsValue>, table: seq<(string, string)>, k: string)
    requires Truthy(Lookup(m, k))
    ensures Lookup(Merge(m, table).0, k) == Lookup(m, k)
    decreases |table|
  {
    if |table| > 0 {
      if Truthy(Lookup(m, table[0].0)) {
        MergeKeepsTruthy(m, table[1..], k);
      } else {
        assert table[0].0 != k;
        MergeKeepsTruthy(m[table[0].0 := Str(table[0].1)], table[1..], k);
      }
    }
  }

  /** Every table name whose entry is falsy ends up holding its command. */
  lemma {:induction false} MergeFillsFalsy(m: map<string, JsValue>, table: seq<(string, string)>, i: nat)
    requires WellFormedTable(table)
    requires i < |table|
    requires !Truthy(Lookup(m, table[i].0))
    ensures Lookup(Merge(m, table).0, table[i].0) == Str(table[i].1)
    decreases |table|
  {
    var m1 := m[table[0].0 := Str(table[0].1)];
    if i == 0 {
      MergeKeepsTruthy(m1, table[1..], table[0].0);
    } else {
      assert table[1..][i - 1] == table[i];
      assert table[0].0 != table[i].0;
      assert WellFormedTable(table[1..]) by {
        forall a, b | 0 <= a < b < |table[1..]| ensures table[1..][a].0 != table[1..][b].0 {
          assert table[1..][a] == table[a + 1] && table[1..][b] == table[b + 1];
        }
      }
      if Truthy(Lookup(m, table[0].0)) {
        MergeFillsFalsy(m, table[1..], i - 1);
      } else {
        MergeFillsFalsy(m1, table[1..], i - 1);
      }
    }
  }

  /** The table without its first entry keeps the table's properties. */
  lemma TailWellFormed(table: seq<(string, string)>)
    requires WellFormedTable(table) && |table| > 0
    ensures WellFormedTable(table[1..])
    ensures table[0].0 !in Names(table[1..])
  {
    var rest := table[1..];
    forall a, b | 0 <= a < b < |rest| ensures rest[a].0 != rest[b].0 {
      assert rest[a] == table[a + 1] && rest[b] == table[b + 1];
    }
  }

  /** Setting a name outside the table does not change which table names are missing. */
  lemma MissingIgnoresOtherNames(m: map<string, JsValue>, n: string, v: JsValue, table: seq<(string, string)>)
    requires n !in Names(table)
    ensures Missing(m[n := v], table) == Missing(m, table)
  {
    forall i | 0 <= i < |table| ensures Lookup(m[n := v], table[i].0) == Lookup(m, table[i].0) {
      assert table[i].0 in Names(table);
    }
  }

  /** The missing names of a table: its first name when that is falsy, and the missing names
      of the rest. */
  lemma MissingCons(m: map<string, JsValue>, table: seq<(string, string)>)
    requires |table| > 0
    ensures Missing(m, table) ==
      (if Truthy(Lookup(m, table[0].0)) then {} else {table[0].0}) + Missing(m, table[1..])
  {
    var rest := table[1..];
    forall k | k in Missing(m, table)
      ensures k in (if Truthy(Lookup(m, table[0].0)) then {} else {table[0].0}) + Missing(m, rest)
    {
      var i :| 0 <= i < |table| && !Truthy(Lookup(m, table[i].0)) && k == table[i].0;
      if i > 0 { assert table[i] == rest[i - 1]; }
    }
    forall k | k in Missing(m, rest) ensures k in Missing(m, table) {
      var i :| 0 <= i < |rest| && !Truthy(Lookup(m, rest[i].0)) && k == rest[i].0;
      assert rest[i] == table[i + 1];
    }
  }

  /** The count the merge returns is the number of distinct names it adds. */
  lemma {:induction false} MergeCountsAdded(m: map<string, JsValue>, table: seq<(string, string)>)
    requires WellFormedTable(table)
    ensures Merge(m, table).1 == |Missing(m, table)|
    decreases |table|
  {
    if |table| > 0 {
      var n := table[0].0;
      var rest := table[1..];
      TailWellFormed(table);
      MissingCons(m, table);
      assert n !in Missing(m, rest);
      if Truthy(Lookup(m, n)) {
        MergeCountsAdded(m, rest);
      } else {
        var m1 := m[n := Str(table[0].1)];
        MergeCountsAdded(m1, rest);
        MissingIgnoresOtherNames(m, n, Str(table[0].1), rest);
      }
    }
  }

  /** A merge that adds nothing leaves the map as it was. */
  lemma {:induction false} MergeAddingNothingChangesNothing(m: map<string, JsValue>, table: seq<(string, string)>)
    ensures Merge(m, table).1 == 0 ==> Merge(m, table).0 == m
    decreases |table|
  {
    if |table| > 0 && Truthy(Lookup(m, table[0].0)) {
      MergeAddingNothingChangesNothing(m, table[1..]);
    }
  }

  /** The merge adds something exactly when it changes the map. */
  lemma MergeChangesIffAdded(m: map<string, JsValue>, table: seq<(string, string)>)
    requires WellFormedTable(table)
    ensures Merge(m, table).1 > 0 <==> Merge(m, table).0 != m
  {
    MergeAddingNothingChangesNothing(m, table);
    MergeCountsAdded(m, table);
    if Merge(m, table).1 > 0 {
      var n :| n in Missing(m, table);
      var i :| 0 <= i < |table| && !Truthy(Lookup(m, table[i].0)) && n == table[i].0;
      MergeFillsFalsy(m, table, i);
      assert Lookup(Merge(m, table).0, n) != Lookup(m, n);
    }
  }

  /** After the merge every table name holds a truthy entry. */
  lemma MergeMakesAllTruthy(m: map<string, JsValue>, table: seq<(string, string)>)
    requires WellFormedTable(table)
    ensures forall i :: 0 <= i < |table| ==> Truthy(Lookup(Merge(m, table).0, table[i].0))
  {
    forall i | 0 <= i < |table| ensures Truthy(Lookup(Merge(m, table).0, table[i].0)) {
      if Truthy(Lookup(m, table[i].0)) {
        MergeKeepsTruthy(m, table, table[i].0);
      } else {
        MergeFillsFalsy(m, table, i);
      }
    }
  }

  /** A map whose table names are all truthy is a fixed point of the merge. */
  lemma {:induction false} MergeOfComplete(m: map<string, JsValue>, table: seq<(string, string)>)
    requires forall i :: 0 <= i < |table| ==> Truthy(Lookup(m, table[i].0))
    ensures Merge(m, table) == (m, 0)
    decreases |table|
  {
    if |table| > 0 {
      assert forall i :: 0 <= i < |table[1..]| ==> table[1..][i] == table[i + 1];
      MergeOfComplete(m, table[1..]);
    }
  }

  /** Merging twice adds nothing the second time. */
  lemma MergeIdempotent(m: map<string, JsValue>, table: seq<(string, string)>)
    requires WellFormedTable(table)
    ensures Merge(Merge(m, table).0, table) == (Merge(m, table).0, 0)
  {
    MergeMakesAllTruthy(m, table);
    MergeOfComplete(Merge(m, table).0, table);
  }

  /** The merge loop: walks the table in order, setting each name whose entry is falsy and
      counting the names it sets. */
  method MergeScripts(scripts: map<string, JsValue>, table: seq<(string, string)>)
    returns (merged: map<string, JsValue>, addedCount: nat)
    ensures (merged, addedCount) == Merge(scripts, table)
  {
    merged, addedCount := scripts, 0;
    for k := 0 to |table|
      invariant Merge(scripts, table) == (Merge(merged, table[k..]).0, addedCount + Merge(merged, table[k..]).1)
    {
      var (name, command) := table[k];
      assert table[k..][0] == table[k] && table[k..][1..] == table[k + 1..];
      if !Truthy(Lookup(merged, name)) {
        merged := merged[name := Str(command)];
        addedCount := addedCount + 1;
      }
    }
    assert table[|table|..] == [];
  }

  // ---------------------------------------------------------------------------------
  // addDeployScripts
  // ---------------------------------------------------------------------------------

  /** What `addDeployScripts` does with the manifest: skips a missing one, fails (the thrown
      error is caught and logged), leaves it unwritten, or writes `pkg` after adding `added`
      entries. */
  datatype SetupOutcome = NoManifest | Failed | Unchanged | Written(pkg: JsValue, added: nat)

  /** `addDeployScripts` as a function of whether the manifest exists and what parsing its
      text gives (`None` when `JSON.parse` throws). `pkg.scripts || {}` replaces a falsy
      `scripts`. A `null` manifest throws on the first property read; a string, number or
      boolean manifest, or a truthy `scripts` of one of those kinds, throws on the first
      property assignment (strict mode). An array manifest or array `scripts` takes the
      named properties, which `JSON.stringify` then drops, so the written text is the
      manifest as read. */
  function AddDeployScriptsSpec(present: bool, parsed: Option<JsValue>): SetupOutcome {
    if !present then NoManifest
    else if parsed.None? then Failed
    else
      match parsed.value
      case Obj(fields) =>
        var given := Prop(parsed.value, "scripts");
        var scripts := if Truthy(given) then given else Obj(map[]);
        (match scripts
         case Obj(m) =>
           var r := Merge(m, DeployScripts);
           if r.1 > 0 then Written(Obj(fields["scripts" := Obj(r.0)]), r.1) else Unchanged
         case Arr(_) => Written(parsed.value, |DeployScripts|)
         case _ => Failed)
      case Arr(_) => Written(parsed.value, |DeployScripts|)
      case _ => Failed
  }

  /** `addDeployScripts`. */
  method AddDeployScripts(present: bool, parsed: Option<JsValue>) returns (outcome: SetupOutcome)
    ensures outcome == AddDeployScriptsSpec(present, parsed)
  {
    if !present {
      return NoManifest;
    }
    if parsed.None? {
      return Failed;
    }
    var pkg := parsed.value;
    match pkg {
      case Obj(fields) =>
        var scripts := Prop(pkg, "scripts");
        if !Truthy(scripts) {
          scripts := Obj(map[]);
        }
        match scripts {
          case Obj(m) =>
            var merged, addedCount := MergeScripts(m, DeployScripts);
            if addedCount > 0 {
              return Written(Obj(fields["scripts" := Obj(merged)]), addedCount);
            }
            return Unchanged;
          case Arr(_) =>
            return Written(pkg, |DeployScripts|);
          case _ =>
            return Failed;
        }
      case Arr(_) =>
        return Written(pkg, |DeployScripts|);
      case _ =>
        return Failed;
    }
  }

  /** The `scripts` map of a manifest object, reading a missing or falsy field as empty. */
  function ScriptsOf(fields: map<string, JsValue>): map<string, JsValue> {
    var given := Prop(Obj(fields), "scripts");
    if given.Obj? then given.fields else map[]
  }

  /** The manifests the merge applies to: an object whose `scripts` is missing, falsy or an
      object. */
  predicate Mergeable(fields: map<string, JsValue>) {
    var given := Prop(Obj(fields), "scripts");
    !Truthy(given) || given.Obj?
  }

  /** The merged map entry by entry: a table name keeps a truthy entry and otherwise holds
      its command; every name outside the table keeps its entry, or stays absent. */
  lemma MergeEntries(m: map<string, JsValue>, table: seq<(string, string)>)
    requires WellFormedTable(table)
    ensures forall i :: 0 <= i < |table| ==>
      Lookup(Merge(m, table).0, table[i].0) ==
        if Truthy(Lookup(m, table[i].0)) then Lookup(m, table[i].0) else Str(table[i].1)
    ensures forall k :: k !in Names(table) ==>
      (k in Merge(m, table).0 <==> k in m) && Lookup(Merge(m, table).0, k) == Lookup(m, k)
  {
    forall i | 0 <= i < |table|
      ensures Lookup(Merge(m, table).0, table[i].0) ==
        if Truthy(Lookup(m, table[i].0)) then Lookup(m, table[i].0) else Str(table[i].1)
    {
      if Truthy(Lookup(m, table[i].0)) {
        MergeKeepsTruthy(m, table, table[i].0);
      } else {
        MergeFillsFalsy(m, table, i);
      }
    }
    forall k | k !in Names(table)
      ensures (k in Merge(m, table).0 <==> k in m) && Lookup(Merge(m, table).0, k) == Lookup(m, k)
    {
      MergeKeepsOtherNames(m, table, k);
    }
  }

  /** For a mergeable manifest: it is written exactly when some deploy name is absent or
      falsy, the count written is the number of such names, the written manifest is the one
      read with its `scripts` replaced by the merged map (every other field as it was), and
      otherwise it is left unwritten. */
  lemma AddDeployScriptsMerges(fields: map<string, JsValue>)
    requires Mergeable(fields)
    ensures var out := AddDeployScriptsSpec(true, Some(Obj(fields)));
      var m := ScriptsOf(fields);
      (out.Written? || out.Unchanged?) &&
      (out.Written? <==> |Missing(m, DeployScripts)| > 0) &&
      (out.Written? ==>
        out.added == |Missing(m, DeployScripts)| &&
        out.pkg == Obj(fields["scripts" := Obj(Merge(m, DeployScripts).0)]))
  {
    DeployScriptsWellFormed();
    MergeCountsAdded(ScriptsOf(fields), DeployScripts);
  }

  /** Running the script again on the manifest it wrote adds nothing and writes nothing. */
  lemma AddDeployScriptsIdempotent(fields: map<string, JsValue>)
    requires Mergeable(fields)
    ensures var out := AddDeployScriptsSpec(true, Some(Obj(fields)));
      out.Written? ==> out.pkg.Obj? && AddDeployScriptsSpec(true, Some(out.pkg)) == Unchanged
  {
    DeployScriptsWellFormed();
    var m := ScriptsOf(fields);
    var r := Merge(m, DeployScripts);
    MergeIdempotent(m, DeployScripts);
    var out := AddDeployScriptsSpec(true, Some(Obj(fields)));
    if out.Written? {
      assert out.pkg == Obj(fields["scripts" := Obj(r.0)]);
      assert ScriptsOf(out.pkg.fields) == r.0;
    }
  }

  /** The manifest setup leaves behind, written or not: the one written, or the one read. */
  function Installed(fields: map<string, JsValue>): JsValue {
    var out := AddDeployScriptsSpec(true, Some(Obj(fields)));
    if out.Written? then out.pkg else Obj(fields)
  }

  /** After setup on a mergeable manifest, every deploy name holds a truthy script. */
  lemma InstalledHasAllScripts(fields: map<string, JsValue>)
    requires Mergeable(fields)
    ensures Installed(fields).Obj? && Prop(Installed(fields), "scripts").Obj?
    ensures forall i :: 0 <= i < |DeployScripts| ==>
      Truthy(Lookup(Prop(Installed(fields), "scripts").fields, DeployScripts[i].0))
  {
    DeployScriptsWellFormed();
    var m := ScriptsOf(fields);
    MergeMakesAllTruthy(m, DeployScripts);
    MergeAddingNothingChangesNothing(m, DeployScripts);
    assert Prop(Installed(fields), "scripts") == Obj(Merge(m, DeployScripts).0);
  }
}
