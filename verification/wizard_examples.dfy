/**
  Worked examples of the complete wizard: concrete answers and the manifest, or
  the stop, they lead to.
 */
module WizardExamples {
  import opened Results
  import opened Tokens
  import opened Validators
  import opened Manifests
  import opened Wizard
  import Deploy
  import opened PykubeYaml

  /** A deployment `web`: 3 replicas of `nginx:latest`, label `app=web`,
      port 80, no env, no volume, restart `yes`. */
  function WebAnswers(): Deploy.DeployAnswers {
    Deploy.DeployAnswers("web", "3", "app", "web", "nginx", "nginx:latest", "80",
                         "no", "", "", "no", "", "", "", "yes")
  }

  /** How the `web` answers split into tokens. */
  lemma WebTokens()
    ensures Str2List("app") == ["app"] && Str2List("web") == ["web"]
    ensures Str2List("80") == ["80"] && Str2List("no") == ["no"]
  {
    Str2ListOfJoin(["app"]);
    Str2ListOfJoin(["web"]);
    Str2ListOfJoin(["80"]);
    Str2ListOfJoin(["no"]);
  }

  /** The `web` answers pass every validator and every check. */
  lemma WebAnswersAccepted()
    ensures Deploy.Valid(WebAnswers()) && Deploy.Accepted(WebAnswers())
  {
    WebTokens();
  }

  /** The manifest the `web` answers should produce. */
  function WebDeployment(): Deployment<string> {
    var container := Container("nginx", "nginx:latest", [ContainerPort(80, "TCP")], None, None);
    var pod := PodSpec([container], None, Some("Always"));
    Deployment(DeploymentApiVersion, "Deployment", "web",
               DeploymentSpec(3, PodTemplate(map["app" := "web"], pod)))
  }

  /** The `web` answers produce exactly that manifest, in `web_deploy.yaml`. */
  lemma DeployExample()
    ensures Deploy.Valid(WebAnswers())
    ensures GenerateDeploy(WebAnswers()) == Ok(Output("web" + "_deploy.yaml", WebDeployment()))
  {
    WebTokens();
    WebAnswersAccepted();
    var r := GenerateDeploy(WebAnswers());
    assert DigitsValue("3") == 3;
    assert "80"[..1] == "8";
    assert DigitsValue("80") == 80;
    var d := r.value.manifest;
    assert d.Pod().containers[0] == WebDeployment().Pod().containers[0];
    assert d.Pod() == WebDeployment().Pod();
  }

  /** Two service ports against one container port: the flow stops and no
      file is written. */
  lemma ServicePortMismatchExample()
    ensures GenerateService(ServiceAnswers("web", "no", "", "", "80 443", "8080", "app", "web"))
            == Abort(PortCountMismatch)
  {
    Str2ListOfJoin(["no"]);
    Str2ListOfJoin(["80", "443"]);
    assert Join(["80", "443"]) == "80 443";
    Str2ListOfJoin(["8080"]);
  }

  /** Two hosts, one path each. */
  function SiteAnswers(): IngressAnswers {
    IngressAnswers("site", "a.com b.com",
                   [RuleAnswers("/x", [BackendAnswers("svc", "80")]),
                    RuleAnswers("/y", [BackendAnswers("api", "8080")])])
  }

  /** How the `site` hosts split into tokens. */
  lemma SiteTokens()
    ensures Str2List("a.com b.com") == ["a.com", "b.com"]
  {
    Str2ListOfJoin(["a.com", "b.com"]);
    assert Join(["a.com", "b.com"]) == "a.com b.com";
  }

  /** A host with a single path token and its backend answers. */
  lemma OnePathRuleValid(path: string, service: string, port: string)
    requires |Str2List(path)| == 1 && IsNull(service) && IsNumber(port)
    ensures ValidRule(RuleAnswers(path, [BackendAnswers(service, port)]))
  {
  }

  /** Each host's answers of the `site` run are well formed. */
  lemma SiteRulesValid()
    ensures ValidRule(SiteAnswers().rules[0]) && ValidRule(SiteAnswers().rules[1])
  {
    Str2ListOfJoin(["/x"]);
    OnePathRuleValid("/x", "svc", "80");
    Str2ListOfJoin(["/y"]);
    OnePathRuleValid("/y", "api", "8080");
  }

  /** Two hosts, each with well-formed answers, make well-formed ingress answers. */
  lemma TwoHostsValid(name: string, hosts: string, first: RuleAnswers, second: RuleAnswers)
    requires IsNull(name) && |Str2List(hosts)| == 2
    requires ValidRule(first) && ValidRule(second)
    ensures ValidIngress(IngressAnswers(name, hosts, [first, second]))
  {
  }

  /** The `site` answers are what the ingress questions can produce. */
  lemma SiteAnswersValid()
    ensures ValidIngress(SiteAnswers())
  {
    SiteTokens();
    SiteRulesValid();
    var a := SiteAnswers();
    TwoHostsValid(a.name, a.hosts, a.rules[0], a.rules[1]);
  }

  /** Hosts `a.com b.com`; under `a.com` the path `/x` goes to `svc:80`. */
  lemma IngressExample()
    ensures ValidIngress(SiteAnswers())
    ensures var out := GenerateIngress(SiteAnswers());
            && out.fileName == "site" + "_ingress.yaml"
            && |out.manifest.rules| == 2
            && out.manifest.rules[0].host == "a.com"
            && out.manifest.rules[0].paths[0] == IngressPath("/x", Backend("svc", 80))
  {
    var a := SiteAnswers();
    SiteTokens();
    Str2ListOfJoin(["/x"]);
    SiteAnswersValid();
    var out := GenerateIngress(a);
    var rule := out.manifest.rules[0];
    assert rule.host == "a.com";
    assert a.rules[0].paths == "/x" && a.rules[0].backends[0] == BackendAnswers("svc", "80");
    assert |rule.paths| == 1 && rule.paths[0].path == "/x";
    assert "80"[..1] == "8";
    assert DigitsValue("80") == 80;
    assert rule.paths[0].backend == Backend("svc", 80);
  }
}
