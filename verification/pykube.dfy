/**
  The short copy of the wizard, `pykube.py`: the same validators and
  tokenizer, a deployment flow, and a dispatch in which `service` and
  `ingress` do nothing. Its host volumes differ from `pykubeyaml.py`: every
  host volume is given the whole list of volume paths as its path.
 */
module Pykube {
  import opened Results
  import opened Tokens
  import opened Manifests
  import opened Wizard
  import Deploy
  import PykubeYaml

  /** Host volume k as written: name k, but the entire path list as path. */
  function WholeListHostVolumes(names: seq<string>, paths: seq<string>, pathType: string): (vs: seq<Volume<seq<string>>>)
    requires |names| == |paths|
    ensures |vs| == |names|
    ensures forall k :: 0 <= k < |vs| ==>
              vs[k].name == names[k] && vs[k].hostPath.path == paths && vs[k].hostPath.pathType == pathType
  {
    seq(|names|, k requires 0 <= k < |names| => Volume(names[k], HostPath(paths, pathType)))
  }

  /** `generate_deploy` as written in this copy: the shared flow, with a
      label mismatch ending it before anything else is asked, and with host
      volume k carrying every volume path. */
  function GenerateDeploy(a: Deploy.DeployAnswers): (r: Result<Output<Deployment<seq<string>>>, Error>)
    requires Deploy.Valid(a)
    ensures r.Ok? <==> Deploy.Accepted(a)
    ensures !Deploy.LabelsPaired(a) ==> r == Abort(LabelCountMismatch)
    ensures r.Ok? ==> r.value.fileName == a.name + "_deploy.yaml"
    ensures r.Ok? && ReadChoice(a.volume) == Yes ==>
              var names := Str2List(a.volumeNames); var paths := Str2List(a.volumePaths);
              var pod := r.value.manifest.Pod();
              && pod.volumes.Some?
              && |pod.volumes.value| == |names|
              && forall k :: 0 <= k < |names| ==>
                   pod.volumes.value[k] == Volume(names[k], HostPath(paths, a.hostPathType))
  {
    Deploy.AssembleDeploy(a, WholeListHostVolumes)
  }

  /** `generate`: only `deployment` runs a flow; the `service` and `ingress`
      branches do nothing, so nothing is produced. */
  function Generate(kind: string, a: Deploy.DeployAnswers): (r: Result<Option<Output<Deployment<seq<string>>>>, Error>)
    requires PykubeYaml.IsKind(kind)
    requires kind == "deployment" ==> Deploy.Valid(a)
    ensures kind != "deployment" ==> r == Ok(None)
    ensures kind == "deployment" ==> (r.Ok? <==> Deploy.Accepted(a))
    ensures kind == "deployment" && r.Ok? ==> r.value.Some? && r.value.value.fileName == a.name + "_deploy.yaml"
    ensures kind == "deployment" && r.Ok? ==> r.value == Some(GenerateDeploy(a).value)
    ensures r.Abort? ==> kind == "deployment" && r.error == GenerateDeploy(a).error
  {
    if kind == "deployment" then
      var out :- GenerateDeploy(a);
      Ok(Some(out))
    else
      Ok(None)
  }

  /** Accepted answers with volumes: the two copies agree on everything but
      the host volume paths. Host volume k here carries the whole path list,
      of which the path the complete copy gives it is only item k. */
  lemma HostPathsAgainstZipped(a: Deploy.DeployAnswers)
    requires Deploy.Valid(a) && Deploy.Accepted(a) && ReadChoice(a.volume) == Yes
    ensures GenerateDeploy(a).Ok? && PykubeYaml.GenerateDeploy(a).Ok?
    ensures var mine := GenerateDeploy(a).value.manifest; var theirs := PykubeYaml.GenerateDeploy(a).value.manifest;
            && mine.Pod().containers == theirs.Pod().containers
            && mine.spec.template.labels == theirs.spec.template.labels
            && mine.spec.replicas == theirs.spec.replicas
            && mine.Pod().restartPolicy == theirs.Pod().restartPolicy
    ensures var mine := GenerateDeploy(a).value.manifest.Pod().volumes;
            var theirs := PykubeYaml.GenerateDeploy(a).value.manifest.Pod().volumes;
            var paths := Str2List(a.volumePaths);
            && mine.Some? && theirs.Some? && |mine.value| == |theirs.value| == |paths|
            && forall k :: 0 <= k < |paths| ==>
                 && mine.value[k].name == theirs.value[k].name
                 && mine.value[k].hostPath.path == paths
                 && mine.value[k].hostPath.path[k] == theirs.value[k].hostPath.path
  {
    var mine := GenerateDeploy(a);
    var theirs := PykubeYaml.GenerateDeploy(a);
    var d := Deploy.AssembleDeploy(a, WholeListHostVolumes);
    var e := Deploy.AssembleDeploy(a, PykubeYaml.ZippedHostVolumes);
    assert mine == d && theirs == e;
  }

  /** Answers the flow rejects: both copies stop, for the same reason. */
  lemma CopiesStopAlike(a: Deploy.DeployAnswers)
    requires Deploy.Valid(a) && !Deploy.Accepted(a)
    ensures GenerateDeploy(a).Abort? && PykubeYaml.GenerateDeploy(a).Abort?
    ensures GenerateDeploy(a).error == PykubeYaml.GenerateDeploy(a).error
  {
  }

  /** Accepted answers without volumes: neither copy has host volumes, and
      the two manifests agree field by field. */
  lemma CopiesAgreeWithoutVolumes(a: Deploy.DeployAnswers)
    requires Deploy.Valid(a) && Deploy.Accepted(a) && ReadChoice(a.volume) == No
    ensures GenerateDeploy(a).Ok? && PykubeYaml.GenerateDeploy(a).Ok?
    ensures var mine := GenerateDeploy(a).value; var theirs := PykubeYaml.GenerateDeploy(a).value;
            && mine.fileName == theirs.fileName
            && mine.manifest.name == theirs.manifest.name
            && mine.manifest.spec.replicas == theirs.manifest.spec.replicas
            && mine.manifest.spec.template.labels == theirs.manifest.spec.template.labels
            && mine.manifest.Pod().containers == theirs.manifest.Pod().containers
            && mine.manifest.Pod().volumes.None? && theirs.manifest.Pod().volumes.None?
            && mine.manifest.Pod().restartPolicy == theirs.manifest.Pod().restartPolicy
  {
  }

  /** Two volumes `a b` at `/x /y`: the first host volume is given both
      paths instead of `/x` alone. */
  lemma HostPathCounterexample()
    ensures WholeListHostVolumes(["a", "b"], ["/x", "/y"], "Directory")[0].hostPath.path == ["/x", "/y"]
    ensures PykubeYaml.ZippedHostVolumes(["a", "b"], ["/x", "/y"], "Directory")[0].hostPath.path == "/x"
  {
  }
}
