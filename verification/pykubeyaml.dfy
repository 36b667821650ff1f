/**
  The complete wizard, `pykubeyaml.py`: deployment, service and ingress
  flows behind the `generate --kind` dispatch. Host volumes pair volume
  name k with volume path k.
 */
module PykubeYaml {
  import opened Results
  import opened Tokens
  import opened Validators
  import opened Pairing
  import opened Manifests
  import opened Wizard
  import Deploy

  // ---- Deployment ----

  /** Host volume k: name k with path k, all of the one host path type. */
  function ZippedHostVolumes(names: seq<string>, paths: seq<string>, pathType: string): (vs: seq<Volume<string>>)
    requires |names| == |paths|
    ensures |vs| == |names|
    ensures forall k :: 0 <= k < |vs| ==>
              vs[k].name == names[k] && vs[k].hostPath.path == paths[k] && vs[k].hostPath.pathType == pathType
  {
    seq(|names|, k requires 0 <= k < |names| => Volume(names[k], HostPath(paths[k], pathType)))
  }

  /** `generate_deploy`. Beyond what the shared flow promises: host volume k
      is mounted by volume mount k, under the same name and at the same
      path. */
  function GenerateDeploy(a: Deploy.DeployAnswers): (r: Result<Output<Deployment<string>>, Error>)
    requires Deploy.Valid(a)
    ensures r.Ok? <==> Deploy.Accepted(a)
    ensures !Deploy.LabelsPaired(a) ==> r == Abort(LabelCountMismatch)
    ensures r.Ok? ==> r.value.fileName == a.name + "_deploy.yaml"
    ensures r.Ok? ==> |r.value.manifest.Pod().containers| == 1
    ensures r.Ok? && ReadChoice(a.volume) == Yes ==>
              var names := Str2List(a.volumeNames); var paths := Str2List(a.volumePaths);
              var pod := r.value.manifest.Pod();
              && pod.volumes.Some?
              && |pod.volumes.value| == |names|
              && forall k :: 0 <= k < |names| ==>
                   pod.volumes.value[k] == Volume(names[k], HostPath(paths[k], a.hostPathType))
    ensures r.Ok? && ReadChoice(a.volume) == Yes ==>
              var pod := r.value.manifest.Pod(); var c := pod.containers[0];
              && pod.volumes.Some? && c.volumeMounts.Some?
              && |pod.volumes.value| == |c.volumeMounts.value|
              && forall k :: 0 <= k < |pod.volumes.value| ==>
                   && pod.volumes.value[k].name == c.volumeMounts.value[k].name
                   && pod.volumes.value[k].hostPath.path == c.volumeMounts.value[k].mountPath
  {
    Deploy.AssembleDeploy(a, ZippedHostVolumes)
  }

  // ---- Service ----

  /** The answers to the service questions, as typed. */
  datatype ServiceAnswers = ServiceAnswers(
    name: string,
    labels: string,
    labelKeys: string,
    labelValues: string,
    servicePorts: string,
    containerPorts: string,
    selectorKeys: string,
    selectorValues: string)

  /** The labels yes/no answer has a token and, when it says yes, label keys
      and values pair up. */
  predicate ServiceLabelsSound(a: ServiceAnswers) {
    && ReadChoice(a.labels) != Missing
    && (ReadChoice(a.labels) == Yes ==> |Str2List(a.labelKeys)| == |Str2List(a.labelValues)|)
  }

  predicate ServicePortsPaired(a: ServiceAnswers) {
    |Str2List(a.servicePorts)| == |Str2List(a.containerPorts)|
  }

  predicate ServicePortsNumeric(a: ServiceAnswers) {
    AllNumeric(Str2List(a.servicePorts)) && AllNumeric(Str2List(a.containerPorts))
  }

  predicate SelectorPaired(a: ServiceAnswers) {
    |Str2List(a.selectorKeys)| == |Str2List(a.selectorValues)|
  }

  predicate ServiceAccepted(a: ServiceAnswers) {
    ServiceLabelsSound(a) && ServicePortsPaired(a) && ServicePortsNumeric(a) && SelectorPaired(a)
  }

  /** What the non-empty validator guarantees about the answers to the
      questions that are actually asked. */
  predicate ValidService(a: ServiceAnswers) {
    && IsNull(a.name)
    && (ReadChoice(a.labels) == Yes ==> IsNull(a.labelKeys) && IsNull(a.labelValues))
    && (ServiceLabelsSound(a) ==> IsNull(a.servicePorts) && IsNull(a.containerPorts))
    && (ServiceLabelsSound(a) && ServicePortsPaired(a) && ServicePortsNumeric(a) ==>
          IsNull(a.selectorKeys) && IsNull(a.selectorValues))
  }

  /** `metadata.labels`: absent unless the answer says yes. */
  function ServiceLabels(a: ServiceAnswers): (r: Result<Option<map<string, string>>, Error>)
    ensures r.Ok? <==> ServiceLabelsSound(a)
    ensures ReadChoice(a.labels) == Missing ==> r == Abort(NoChoiceToken)
    ensures ReadChoice(a.labels) == Yes && !ServiceLabelsSound(a) ==> r == Abort(LabelCountMismatch)
    ensures r.Ok? ==> (r.value.Some? <==> ReadChoice(a.labels) == Yes)
    ensures r.Ok? && r.value.Some? ==> r.value.value == ZipMap(Str2List(a.labelKeys), Str2List(a.labelValues))
  {
    match ReadChoice(a.labels)
    case Missing => Abort(NoChoiceToken)
    case No => Ok(None)
    case Yes =>
      var keys := Str2List(a.labelKeys);
      var values := Str2List(a.labelValues);
      if |keys| != |values| then Abort(LabelCountMismatch)
      else Ok(Some(ZipMap(keys, values)))
  }

  /** `generate_service`: the checks in the order the wizard makes them, and
      on success port entry i pairing service port i with container port i. */
  function GenerateService(a: ServiceAnswers): (r: Result<Output<Service>, Error>)
    requires ValidService(a)
    ensures r.Ok? <==> ServiceAccepted(a)
    ensures ReadChoice(a.labels) == Missing ==> r == Abort(NoChoiceToken)
    ensures ReadChoice(a.labels) == Yes && !ServiceLabelsSound(a) ==> r == Abort(LabelCountMismatch)
    ensures ServiceLabelsSound(a) && !ServicePortsPaired(a) ==> r == Abort(PortCountMismatch)
    ensures ServiceLabelsSound(a) && ServicePortsPaired(a) && !ServicePortsNumeric(a) ==> r == Abort(PortNotInteger)
    ensures ServiceLabelsSound(a) && ServicePortsPaired(a) && ServicePortsNumeric(a) && !SelectorPaired(a) ==>
              r == Abort(SelectorCountMismatch)
    ensures r.Ok? ==> r.value.fileName == a.name + "_service.yaml"
    ensures r.Ok? ==> var s := r.value.manifest;
              && s.apiVersion == ServiceApiVersion && s.kind == "Service" && s.name == a.name
              && (s.labels.Some? <==> ReadChoice(a.labels) == Yes)
              && (s.labels.Some? ==> s.labels.value == ZipMap(Str2List(a.labelKeys), Str2List(a.labelValues)))
              && s.selector == ZipMap(Str2List(a.selectorKeys), Str2List(a.selectorValues))
    ensures r.Ok? ==> var s := r.value.manifest;
              var sp := Str2List(a.servicePorts); var cp := Str2List(a.containerPorts);
              && |s.ports| == |sp| == |cp|
              && forall i :: 0 <= i < |sp| ==>
                   s.ports[i] == ServicePort(DigitsValue(sp[i]), DigitsValue(cp[i]), "TCP", "http")
  {
    var labels :- ServiceLabels(a);
    var sp := Str2List(a.servicePorts);
    var cp := Str2List(a.containerPorts);
    if |sp| != |cp| then Abort(PortCountMismatch)
    else
      var spValues := ParseInts(sp);
      var cpValues := ParseInts(cp);
      if spValues.None? || cpValues.None? then Abort(PortNotInteger)
      else
        var ports := seq(|sp|, i requires 0 <= i < |sp| =>
                       ServicePort(spValues.value[i], cpValues.value[i], "TCP", "http"));
        var keys := Str2List(a.selectorKeys);
        var values := Str2List(a.selectorValues);
        if |keys| != |values| then Abort(SelectorCountMismatch)
        else Ok(Output(a.name + "_service.yaml",
                       Service(ServiceApiVersion, "Service", a.name, labels, ports, ZipMap(keys, values))))
  }

  /** The deployment labels are asked "for service": a service whose
      selector answers are a deployment's label answers selects exactly the
      labels that deployment's pods carry. */
  lemma ServiceSelectsDeployment(d: Deploy.DeployAnswers, s: ServiceAnswers)
    requires Deploy.Valid(d) && ValidService(s)
    requires s.selectorKeys == d.labelKeys && s.selectorValues == d.labelValues
    requires GenerateDeploy(d).Ok? && GenerateService(s).Ok?
    ensures GenerateService(s).value.manifest.selector == GenerateDeploy(d).value.manifest.spec.template.labels
  {
  }

  // ---- Ingress ----

  /** The service name and port typed for one path. */
  datatype BackendAnswers = BackendAnswers(serviceName: string, servicePort: string)

  /** The paths typed for one host, and one backend per path token. */
  datatype RuleAnswers = RuleAnswers(paths: string, backends: seq<BackendAnswers>)

  /** The ingress name, the hosts, and the answers for each host token. */
  datatype IngressAnswers = IngressAnswers(name: string, hosts: string, rules: seq<RuleAnswers>)

  /** One host's answers: a non-empty path answer, and for every path token
      a non-empty service name and a digit-string service port. */
  predicate ValidRule(r: RuleAnswers) {
    && IsNull(r.paths)
    && |r.backends| == |Str2List(r.paths)|
    && forall j :: 0 <= j < |r.backends| ==>
         IsNull(r.backends[j].serviceName) && IsNumber(r.backends[j].servicePort)
  }

  /** The questions are asked once per host token, and within a host once
      per path token; every answer passed its validator. */
  predicate ValidIngress(a: IngressAnswers) {
    && IsNull(a.name)
    && IsNull(a.hosts)
    && |a.rules| == |Str2List(a.hosts)|
    && forall i :: 0 <= i < |a.rules| ==> ValidRule(a.rules[i])
  }

  /** The `http.paths` of one rule. */
  function RulePaths(r: RuleAnswers): (entries: seq<IngressPath>)
    requires ValidRule(r)
    ensures |entries| == |Str2List(r.paths)|
    ensures forall j :: 0 <= j < |entries| ==>
              && entries[j].path == Str2List(r.paths)[j]
              && entries[j].backend.serviceName == r.backends[j].serviceName
              && entries[j].backend.servicePort == DigitsValue(r.backends[j].servicePort)
  {
    var tokens := Str2List(r.paths);
    seq(|tokens|, j requires 0 <= j < |tokens| =>
      IngressPath(tokens[j], Backend(r.backends[j].serviceName, DigitsValue(r.backends[j].servicePort))))
  }

  /** `generate_ingress`: one rule per host token, in order, each with one
      path entry per path token typed for that host, in order. It never
      stops early: the service port answers are already digit strings. */
  function GenerateIngress(a: IngressAnswers): (out: Output<Ingress>)
    requires ValidIngress(a)
    ensures out.fileName == a.name + "_ingress.yaml"
    ensures var g := out.manifest;
              && g.apiVersion == IngressApiVersion && g.kind == "Ingress" && g.name == a.name
              && g.annotations == NginxAnnotations
    ensures var hosts := Str2List(a.hosts); var rules := out.manifest.rules;
              && |rules| == |hosts|
              && forall i :: 0 <= i < |hosts| ==> rules[i].host == hosts[i]
    ensures forall i :: 0 <= i < |a.rules| ==>
              var paths := Str2List(a.rules[i].paths); var entries := out.manifest.rules[i].paths;
              && |entries| == |paths|
              && forall j :: 0 <= j < |paths| ==>
                   && entries[j].path == paths[j]
                   && entries[j].backend.serviceName == a.rules[i].backends[j].serviceName
                   && entries[j].backend.servicePort == DigitsValue(a.rules[i].backends[j].servicePort)
  {
    var hosts := Str2List(a.hosts);
    var rules := seq(|hosts|, i requires 0 <= i < |hosts| => Rule(hosts[i], RulePaths(a.rules[i])));
    Output(a.name + "_ingress.yaml", Ingress(IngressApiVersion, "Ingress", a.name, NginxAnnotations, rules))
  }

  /** The hosts of the rules, in order. */
  function Hosts(g: Ingress): seq<string> {
    seq(|g.rules|, i requires 0 <= i < |g.rules| => g.rules[i].host)
  }

  /** The paths of one rule, in order. */
  function PathStrings(rule: Rule): seq<string> {
    seq(|rule.paths|, j requires 0 <= j < |rule.paths| => rule.paths[j].path)
  }

  /** The ingress gives back what was typed: its hosts are the host answer's
      tokens and each rule's paths are that host's path tokens, so joining
      them with spaces and tokenizing again yields the answers' tokens. */
  lemma {:induction false} IngressRecoversAnswers(a: IngressAnswers)
    requires ValidIngress(a)
    ensures Hosts(GenerateIngress(a).manifest) == Str2List(a.hosts)
    ensures Str2List(Join(Hosts(GenerateIngress(a).manifest))) == Str2List(a.hosts)
    ensures forall i :: 0 <= i < |a.rules| ==>
              && PathStrings(GenerateIngress(a).manifest.rules[i]) == Str2List(a.rules[i].paths)
              && Str2List(Join(PathStrings(GenerateIngress(a).manifest.rules[i]))) == Str2List(a.rules[i].paths)
  {
    var g := GenerateIngress(a).manifest;
    assert Hosts(g) == Str2List(a.hosts);
    Str2ListOfJoin(Str2List(a.hosts));
    forall i | 0 <= i < |a.rules|
      ensures PathStrings(g.rules[i]) == Str2List(a.rules[i].paths)
      ensures Str2List(Join(PathStrings(g.rules[i]))) == Str2List(a.rules[i].paths)
    {
      assert PathStrings(g.rules[i]) == Str2List(a.rules[i].paths);
      Str2ListOfJoin(Str2List(a.rules[i].paths));
    }
  }

  // ---- Dispatch ----

  /** The manifest one run produces. */
  datatype Manifest =
    | DeploymentManifest(deployment: Deployment<string>)
    | ServiceManifest(service: Service)
    | IngressManifest(ingress: Ingress)

  /** Everything the user may be asked in one run; only the answers of the
      chosen kind are read. */
  datatype Answers = Answers(deploy: Deploy.DeployAnswers, service: ServiceAnswers, ingress: IngressAnswers)

  /** The `--kind` choices. */
  predicate IsKind(kind: string) {
    kind == "deployment" || kind == "service" || kind == "ingress"
  }

  /** The answers of the chosen kind passed their validators. */
  predicate ValidFor(kind: string, answers: Answers) {
    && (kind == "deployment" ==> Deploy.Valid(answers.deploy))
    && (kind == "service" ==> ValidService(answers.service))
    && (kind == "ingress" ==> ValidIngress(answers.ingress))
  }

  /** `generate`: runs the flow of the chosen kind. */
  function Generate(kind: string, answers: Answers): (r: Result<Output<Manifest>, Error>)
    requires IsKind(kind)
    requires ValidFor(kind, answers)
    ensures r.Ok? ==> (r.value.manifest.DeploymentManifest? <==> kind == "deployment")
    ensures r.Ok? ==> (r.value.manifest.ServiceManifest? <==> kind == "service")
    ensures r.Ok? ==> (r.value.manifest.IngressManifest? <==> kind == "ingress")
    ensures kind == "deployment" ==> (r.Ok? <==> Deploy.Accepted(answers.deploy))
    ensures kind == "service" ==> (r.Ok? <==> ServiceAccepted(answers.service))
    ensures kind == "ingress" ==> r.Ok?
    ensures r.Ok? && kind == "deployment" ==> r.value.fileName == answers.deploy.name + "_deploy.yaml"
    ensures r.Ok? && kind == "service" ==> r.value.fileName == answers.service.name + "_service.yaml"
    ensures r.Ok? && kind == "ingress" ==> r.value.fileName == answers.ingress.name + "_ingress.yaml"
    // the manifest, or the reason for stopping, is the chosen flow's
    ensures r.Ok? && kind == "deployment" ==>
              r.value.manifest == DeploymentManifest(GenerateDeploy(answers.deploy).value.manifest)
    ensures r.Ok? && kind == "service" ==>
              r.value.manifest == ServiceManifest(GenerateService(answers.service).value.manifest)
    ensures r.Ok? && kind == "ingress" ==>
              r.value.manifest == IngressManifest(GenerateIngress(answers.ingress).manifest)
    ensures r.Abort? && kind == "deployment" ==> r.error == GenerateDeploy(answers.deploy).error
    ensures r.Abort? && kind == "service" ==> r.error == GenerateService(answers.service).error
  {
    if kind == "deployment" then
      var out :- GenerateDeploy(answers.deploy);
      Ok(Output(out.fileName, DeploymentManifest(out.manifest)))
    else if kind == "service" then
      var out :- GenerateService(answers.service);
      Ok(Output(out.fileName, ServiceManifest(out.manifest)))
    else
      var out := GenerateIngress(answers.ingress);
      Ok(Output(out.fileName, IngressManifest(out.manifest)))
  }
}
