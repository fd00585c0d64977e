/** The uninstall script of src/scripts/uninstall.ts: every script whose name starts with
    `deploy` is deleted from the package manifest, which is written back only when there
    was something to delete. The manifest's text is a parameter: the value `JSON.parse`
    returns for it. */
module Uninstall {
  import opened Wrappers
  import opened Text
  import opened JsValues
  import Setup

  /** What `cleanupScripts` does with the manifest: fails (the thrown error is caught and
      logged), finds nothing to delete and leaves it unwritten, or writes `pkg` after
      deleting the script names in `removed`. */
  datatype CleanupOutcome = Failed | NothingToRemove | Written(pkg: JsValue, removed: set<string>)

  /** The names `Object.keys(scripts || {})` lists that start with `deploy`. Only an object
      has such keys: a string lists its indices, an array its indices, and a number, a
      boolean or a falsy value none. */
  function DeployNames(scripts: JsValue): (names: set<string>)
    ensures names != {} ==> scripts.Obj? && names <= scripts.fields.Keys
    ensures forall k :: k in names ==> StartsWith(k, "deploy")
  {
    if scripts.Obj? then set k | k in scripts.fields && StartsWith(k, "deploy") else {}
  }

  /** `cleanupScripts` as a function of what parsing the manifest gives (`None` when
      `JSON.parse` throws). Reading `scripts` off `null` throws; every other manifest that is
      not an object has no `scripts` and so nothing to delete. A written manifest keeps every
      field but `scripts`; its scripts object has no name starting with `deploy` left, keeps
      every other entry with its value, gains nothing, and lost exactly the names reported. */
  function CleanupSpec(parsed: Option<JsValue>): (out: CleanupOutcome)
    ensures parsed.Some? && parsed.value.Obj? && !Truthy(Prop(parsed.value, "scripts")) ==> out == NothingToRemove
    ensures out.Written? ==>
      parsed.Some? && parsed.value.Obj? && Prop(parsed.value, "scripts").Obj? &&
      var before := Prop(parsed.value, "scripts").fields;
      out.pkg.Obj? && out.pkg.fields.Keys == parsed.value.fields.Keys &&
      (forall f :: f in parsed.value.fields && f != "scripts" ==> out.pkg.fields[f] == parsed.value.fields[f]) &&
      out.pkg.fields["scripts"].Obj? &&
      var after := out.pkg.fields["scripts"].fields;
      (forall k :: k in after ==> !StartsWith(k, "deploy")) &&
      (forall k :: k in before && !StartsWith(k, "deploy") ==> k in after && after[k] == before[k]) &&
      after.Keys <= before.Keys &&
      out.removed == before.Keys - after.Keys
  {
    if parsed.None? || parsed.value.Null? || parsed.value.Undefined? then Failed
    else
      var scripts := Prop(parsed.value, "scripts");
      var matching := DeployNames(scripts);
      if matching == {} then NothingToRemove
      else if parsed.value.Obj? then
        Written(Obj(parsed.value.fields["scripts" := Obj(scripts.fields - matching)]), matching)
      else assert false; Failed
  }

  /** `cleanupScripts`: lists the matching names, returns when there are none, and otherwise
      deletes them from the scripts object one at a time before writing the manifest. */
  method CleanupScripts(parsed: Option<JsValue>) returns (outcome: CleanupOutcome)
    ensures outcome == CleanupSpec(parsed)
  {
    if parsed.None? || parsed.value.Null? || parsed.value.Undefined? {
      return Failed;
    }
    var pkg := parsed.value;
    var scripts := Prop(pkg, "scripts");
    var deployScripts := DeployNames(scripts);
    if deployScripts == {} {
      return NothingToRemove;
    }
    var remaining := scripts.fields;
    var pending := deployScripts;
    while pending != {}
      invariant pending <= deployScripts
      invariant remaining == scripts.fields - (deployScripts - pending)
      decreases |pending|
    {
      var script :| script in pending;
      remaining := remaining - {script};
      pending := pending - {script};
    }
    assert deployScripts - pending == deployScripts;
    if pkg.Obj? {
      return Written(Obj(pkg.fields["scripts" := Obj(remaining)]), deployScripts);
    }
    assert false;
  }

  /** The manifest is written exactly when its scripts object has a name starting with
      `deploy`; it fails only when it cannot be parsed or is `null`. */
  lemma CleanupWritesIffDeployScripts(parsed: Option<JsValue>)
    ensures CleanupSpec(parsed).Failed? <==> parsed.None? || parsed.value.Null? || parsed.value.Undefined?
    ensures CleanupSpec(parsed).Written? <==>
      parsed.Some? && parsed.value.Obj? && Prop(parsed.value, "scripts").Obj? &&
      exists k :: k in Prop(parsed.value, "scripts").fields && StartsWith(k, "deploy")
  {
    if parsed.Some? && parsed.value.Obj? && Prop(parsed.value, "scripts").Obj? {
      var m := Prop(parsed.value, "scripts").fields;
      if exists k :: k in m && StartsWith(k, "deploy") {
        var k :| k in m && StartsWith(k, "deploy");
        assert k in DeployNames(Prop(parsed.value, "scripts"));
      }
    }
  }

  /** A manifest whose scripts object holds every deploy name loses all of them. */
  lemma CleanupRemovesAllDeployNames(pkg: JsValue)
    requires pkg.Obj? && Prop(pkg, "scripts").Obj?
    requires forall i :: 0 <= i < |Setup.DeployScripts| ==> Setup.DeployScripts[i].0 in Prop(pkg, "scripts").fields
    ensures var out := CleanupSpec(Some(pkg));
      out.Written? && Setup.Names(Setup.DeployScripts) <= out.removed &&
      out.pkg.Obj? && "scripts" in out.pkg.fields && out.pkg.fields["scripts"].Obj? &&
      forall name :: name in Setup.Names(Setup.DeployScripts) ==> name !in out.pkg.fields["scripts"].fields
  {
    var table := Setup.DeployScripts;
    forall name | name in Setup.Names(table)
      ensures name in DeployNames(Prop(pkg, "scripts"))
    {
      var i :| 0 <= i < |table| && name == table[i].0;
      assert StartsWith(name, "deploy");
    }
    assert table[0].0 in DeployNames(Prop(pkg, "scripts"));
  }

  /** Cleanup after setup deletes every script setup adds: whatever setup leaves in a
      mergeable manifest, written or not, the cleanup writes back without any of the five
      deploy names. */
  lemma CleanupAfterSetup(fields: map<string, JsValue>)
    requires Setup.Mergeable(fields)
    ensures var out := CleanupSpec(Some(Setup.Installed(fields)));
      out.Written? && Setup.Names(Setup.DeployScripts) <= out.removed &&
      out.pkg.Obj? && "scripts" in out.pkg.fields && out.pkg.fields["scripts"].Obj? &&
      forall name :: name in Setup.Names(Setup.DeployScripts) ==> name !in out.pkg.fields["scripts"].fields
  {
    Setup.InstalledHasAllScripts(fields);
    CleanupRemovesAllDeployNames(Setup.Installed(fields));
  }
}
