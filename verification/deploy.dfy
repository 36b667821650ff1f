/**
  The deployment flow common to both copies of the wizard: the answers in the
  order they are asked, the checks in the order they are made, and the
  manifest they produce. How host volumes are built is the one point where
  the two copies differ, so it is a parameter here.
 */
module Deploy {
  import opened Results
  import opened Tokens
  import opened Validators
  import opened Pairing
  import opened Manifests
  import opened Wizard

  /** The answers to the deployment questions, as typed. */
  datatype DeployAnswers = DeployAnswers(
    name: string,
    replicas: string,
    labelKeys: string,
    labelValues: string,
    containerName: string,
    image: string,
    ports: string,
    env: string,
    envNames: string,
    envValues: string,
    volume: string,
    volumeNames: string,
    volumePaths: string,
    hostPathType: string,
    restart: string)

  /** Label keys and label values pair up. */
  predicate LabelsPaired(a: DeployAnswers) {
    |Str2List(a.labelKeys)| == |Str2List(a.labelValues)|
  }

  /** Every container port token is an integer. */
  predicate PortsNumeric(a: DeployAnswers) {
    AllNumeric(Str2List(a.ports))
  }

  /** The env yes/no answer has a token and, when it says yes, env names and
      values pair up. */
  predicate EnvSound(a: DeployAnswers) {
    && ReadChoice(a.env) != Missing
    && (ReadChoice(a.env) == Yes ==> |Str2List(a.envNames)| == |Str2List(a.envValues)|)
  }

  /** The volume yes/no answer has a token and, when it says yes, volume
      names and paths pair up. */
  predicate VolumeSound(a: DeployAnswers) {
    && ReadChoice(a.volume) != Missing
    && (ReadChoice(a.volume) == Yes ==> |Str2List(a.volumeNames)| == |Str2List(a.volumePaths)|)
  }

  /** Every check of the flow passes. */
  predicate Accepted(a: DeployAnswers) {
    LabelsPaired(a) && PortsNumeric(a) && EnvSound(a) && VolumeSound(a)
  }

  /** What the prompts' validators guarantee about the answers to the
      questions that are actually asked: the replica count is a digit string
      and every answer read with the non-empty validator is non-empty. */
  predicate Valid(a: DeployAnswers) {
    && IsNull(a.name)
    && IsNumber(a.replicas)
    && IsNull(a.labelKeys)
    && IsNull(a.labelValues)
    && (LabelsPaired(a) ==> IsNull(a.containerName) && IsNull(a.image) && IsNull(a.ports))
    && (LabelsPaired(a) && PortsNumeric(a) && ReadChoice(a.env) == Yes ==>
          IsNull(a.envNames) && IsNull(a.envValues))
    && (LabelsPaired(a) && PortsNumeric(a) && EnvSound(a) && ReadChoice(a.volume) == Yes ==>
          IsNull(a.volumeNames) && IsNull(a.volumePaths))
    && (Accepted(a) && ReadChoice(a.volume) == Yes ==> IsNull(a.hostPathType))
    && (Accepted(a) ==> IsNull(a.restart))
  }

  /** The `ports` list of the container: one entry per port token, or a
      stop as soon as a token is not an integer. */
  function ContainerPorts(tokens: seq<string>): (r: Result<seq<ContainerPort>, Error>)
    ensures r.Ok? <==> AllNumeric(tokens)
    ensures r.Abort? ==> r.error == PortNotInteger
    ensures r.Ok? ==> |r.value| == |tokens|
    ensures r.Ok? ==> forall i :: 0 <= i < |tokens| ==>
              r.value[i] == ContainerPort(DigitsValue(tokens[i]), "TCP")
  {
    match ParseInts(tokens)
    case None => Abort(PortNotInteger)
    case Some(ns) => Ok(seq(|ns|, i requires 0 <= i < |ns| => ContainerPort(ns[i], "TCP")))
  }

  /** The `env` block: absent unless the answer says yes. */
  function EnvBlock(a: DeployAnswers): (r: Result<Option<seq<EnvVar>>, Error>)
    ensures r.Ok? <==> EnvSound(a)
    ensures ReadChoice(a.env) == Missing ==> r == Abort(NoChoiceToken)
    ensures ReadChoice(a.env) == Yes && !EnvSound(a) ==> r == Abort(EnvCountMismatch)
    ensures r.Ok? ==> (r.value.Some? <==> ReadChoice(a.env) == Yes)
    ensures r.Ok? && r.value.Some? ==>
              var names := Str2List(a.envNames); var values := Str2List(a.envValues);
              && |r.value.value| == |names|
              && forall k :: 0 <= k < |names| ==> r.value.value[k] == EnvVar(names[k], values[k])
  {
    match ReadChoice(a.env)
    case Missing => Abort(NoChoiceToken)
    case No => Ok(None)
    case Yes =>
      var names := Str2List(a.envNames);
      var values := Str2List(a.envValues);
      if |names| != |values| then Abort(EnvCountMismatch)
      else Ok(Some(seq(|names|, k requires 0 <= k < |names| => EnvVar(names[k], values[k]))))
  }

  /** The container's `volumeMounts` and the pod's host `volumes`: absent
      unless the answer says yes. */
  function VolumeBlock<P>(a: DeployAnswers, hostVolumes: (seq<string>, seq<string>, string) --> seq<Volume<P>>)
    : (r: Result<Option<(seq<VolumeMount>, seq<Volume<P>>)>, Error>)
    requires forall names, paths, t :: |names| == |paths| ==> hostVolumes.requires(names, paths, t)
    ensures r.Ok? <==> VolumeSound(a)
    ensures ReadChoice(a.volume) == Missing ==> r == Abort(NoChoiceToken)
    ensures ReadChoice(a.volume) == Yes && !VolumeSound(a) ==> r == Abort(VolumeCountMismatch)
    ensures r.Ok? ==> (r.value.Some? <==> ReadChoice(a.volume) == Yes)
    ensures r.Ok? && r.value.Some? ==>
              var names := Str2List(a.volumeNames); var paths := Str2List(a.volumePaths);
              && |r.value.value.0| == |names|
              && (forall k :: 0 <= k < |names| ==> r.value.value.0[k] == VolumeMount(names[k], paths[k]))
              && r.value.value.1 == hostVolumes(names, paths, a.hostPathType)
  {
    match ReadChoice(a.volume)
    case Missing => Abort(NoChoiceToken)
    case No => Ok(None)
    case Yes =>
      var names := Str2List(a.volumeNames);
      var paths := Str2List(a.volumePaths);
      if |names| != |paths| then Abort(VolumeCountMismatch)
      else
        var mounts := seq(|names|, k requires 0 <= k < |names| => VolumeMount(names[k], paths[k]));
        Ok(Some((mounts, hostVolumes(names, paths, a.hostPathType))))
  }

  /** `restartPolicy`: `Always` when the answer is exactly `yes`. */
  function RestartPolicy(answer: string): (r: Option<string>)
    ensures r.Some? <==> answer == "yes"
    ensures r.Some? ==> r.value == "Always"
  {
    if answer == "yes" then Some("Always") else None
  }

  /** The deployment flow: the checks in the order the wizard makes them,
      and on success the manifest with every field taken from the answers. */
  function AssembleDeploy<P>(a: DeployAnswers, hostVolumes: (seq<string>, seq<string>, string) --> seq<Volume<P>>)
    : (r: Result<Output<Deployment<P>>, Error>)
    requires Valid(a)
    requires forall names, paths, t :: |names| == |paths| ==> hostVolumes.requires(names, paths, t)
    // the flow stops at the first check that fails
    ensures r.Ok? <==> Accepted(a)
    ensures !LabelsPaired(a) ==> r == Abort(LabelCountMismatch)
    ensures LabelsPaired(a) && !PortsNumeric(a) ==> r == Abort(PortNotInteger)
    ensures LabelsPaired(a) && PortsNumeric(a) && ReadChoice(a.env) == Missing ==> r == Abort(NoChoiceToken)
    ensures LabelsPaired(a) && PortsNumeric(a) && !EnvSound(a) && ReadChoice(a.env) == Yes ==>
              r == Abort(EnvCountMismatch)
    ensures LabelsPaired(a) && PortsNumeric(a) && EnvSound(a) && ReadChoice(a.volume) == Missing ==>
              r == Abort(NoChoiceToken)
    ensures LabelsPaired(a) && PortsNumeric(a) && EnvSound(a) && !VolumeSound(a) && ReadChoice(a.volume) == Yes ==>
              r == Abort(VolumeCountMismatch)
    // the file and the deployment's own fields
    ensures r.Ok? ==> r.value.fileName == a.name + "_deploy.yaml"
    ensures r.Ok? ==> var d := r.value.manifest;
              && d.apiVersion == DeploymentApiVersion && d.kind == "Deployment" && d.name == a.name
              && d.spec.replicas == DigitsValue(a.replicas)
              && d.spec.template.labels == ZipMap(Str2List(a.labelKeys), Str2List(a.labelValues))
              && |d.Pod().containers| == 1
    // the single container
    ensures r.Ok? ==> var d := r.value.manifest; var c := d.Pod().containers[0];
              var tokens := Str2List(a.ports);
              && c.name == a.containerName && c.image == a.image
              && |c.ports| == |tokens|
              && forall i :: 0 <= i < |tokens| ==> c.ports[i] == ContainerPort(DigitsValue(tokens[i]), "TCP")
    ensures r.Ok? ==> var c := r.value.manifest.Pod().containers[0];
              var names := Str2List(a.envNames); var values := Str2List(a.envValues);
              && (c.env.Some? <==> ReadChoice(a.env) == Yes)
              && (c.env.Some? ==>
                    && |c.env.value| == |names|
                    && forall k :: 0 <= k < |names| ==> c.env.value[k] == EnvVar(names[k], values[k]))
    ensures r.Ok? ==> var c := r.value.manifest.Pod().containers[0];
              var names := Str2List(a.volumeNames); var paths := Str2List(a.volumePaths);
              && (c.volumeMounts.Some? <==> ReadChoice(a.volume) == Yes)
              && (c.volumeMounts.Some? ==>
                    && |c.volumeMounts.value| == |names|
                    && forall k :: 0 <= k < |names| ==> c.volumeMounts.value[k] == VolumeMount(names[k], paths[k]))
    // the pod: host volumes and restart policy
    ensures r.Ok? ==> var pod := r.value.manifest.Pod();
              && (pod.volumes.Some? <==> ReadChoice(a.volume) == Yes)
              && (pod.volumes.Some? ==>
                    pod.volumes.value == hostVolumes(Str2List(a.volumeNames), Str2List(a.volumePaths), a.hostPathType))
    ensures r.Ok? ==> var pod := r.value.manifest.Pod();
              && (pod.restartPolicy.Some? <==> a.restart == "yes")
              && (pod.restartPolicy.Some? ==> pod.restartPolicy.value == "Always")
  {
    var keys := Str2List(a.labelKeys);
    var values := Str2List(a.labelValues);
    if |keys| != |values| then Abort(LabelCountMismatch)
    else
      var ports :- ContainerPorts(Str2List(a.ports));
      var env :- EnvBlock(a);
      var volumeBlock :- VolumeBlock(a, hostVolumes);
      var mounts := if volumeBlock.Some? then Some(volumeBlock.value.0) else None;
      var volumes := if volumeBlock.Some? then Some(volumeBlock.value.1) else None;
      var container := Container(a.containerName, a.image, ports, env, mounts);
      var pod := PodSpec([container], volumes, RestartPolicy(a.restart));
      var spec := DeploymentSpec(DigitsValue(a.replicas), PodTemplate(ZipMap(keys, values), pod));
      Ok(Output(a.name + "_deploy.yaml", Deployment(DeploymentApiVersion, "Deployment", a.name, spec)))
  }
}
