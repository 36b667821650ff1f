/**
  The typed shapes of the three manifests the wizard writes. Optional blocks
  of the YAML document (a key the wizard may or may not insert) are `Option`
  fields; `metadata.name` is flattened into a `name` field.
 */
module Manifests {
  import opened Results

  const DeploymentApiVersion := "extensions/v1beta1"
  const ServiceApiVersion := "v1"
  const IngressApiVersion := "extensions/v1beta1"

  /** The two annotations every ingress carries. */
  const NginxAnnotations: map<string, string> :=
    map["kubernetes.io/ingress.class" := "nginx",
        "nginx.ingress.kubernetes.io/ssl-redirect" := "false"]

  // ---- Deployment ----

  datatype ContainerPort = ContainerPort(containerPort: nat, protocol: string)

  datatype EnvVar = EnvVar(name: string, value: string)

  datatype VolumeMount = VolumeMount(name: string, mountPath: string)

  datatype Container = Container(
    name: string,
    image: string,
    ports: seq<ContainerPort>,
    env: Option<seq<EnvVar>>,
    volumeMounts: Option<seq<VolumeMount>>)

  /** `hostPath` of a volume; `P` is the type of its `path` value. */
  datatype HostPath<P> = HostPath(path: P, pathType: string)

  datatype Volume<P> = Volume(name: string, hostPath: HostPath<P>)

  datatype PodSpec<P> = PodSpec(
    containers: seq<Container>,
    volumes: Option<seq<Volume<P>>>,
    restartPolicy: Option<string>)

  /** `spec.template`: the pod's labels and the pod spec. */
  datatype PodTemplate<P> = PodTemplate(labels: map<string, string>, spec: PodSpec<P>)

  datatype DeploymentSpec<P> = DeploymentSpec(replicas: nat, template: PodTemplate<P>)

  datatype Deployment<P> = Deployment(
    apiVersion: string,
    kind: string,
    name: string,
    spec: DeploymentSpec<P>)
  {
    /** `spec.template.spec` */
    function Pod(): PodSpec<P> {
      spec.template.spec
    }
  }

  // ---- Service ----

  datatype ServicePort = ServicePort(port: nat, targetPort: nat, protocol: string, name: string)

  datatype Service = Service(
    apiVersion: string,
    kind: string,
    name: string,
    labels: Option<map<string, string>>,
    ports: seq<ServicePort>,
    selector: map<string, string>)

  // ---- Ingress ----

  datatype Backend = Backend(serviceName: string, servicePort: nat)

  datatype IngressPath = IngressPath(path: string, backend: Backend)

  /** One rule: a host and its `http.paths`. */
  datatype Rule = Rule(host: string, paths: seq<IngressPath>)

  datatype Ingress = Ingress(
    apiVersion: string,
    kind: string,
    name: string,
    annotations: map<string, string>,
    rules: seq<Rule>)
}
