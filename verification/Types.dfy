/** internal/ingress/types.go and sslcert.go: the controller's data model.

    Every record keeps the fields the modelled code reads one by one.  Option structs that
    are only copied and compared are bundled into one string: `options` for the fields the
    source's Equal methods compare, `uncompared` for the ones they leave out.
 */
module Types {
  import opened Matching
  import opened Strings

  datatype Option<+T> = None | Some(value: T)

  /** Unset is the nil pointer of an Ingress that gives no path type. */
  datatype PathType = Unset | Exact | Prefix | ImplementationSpecific

  datatype IntOrString = Number(n: int) | Name(s: string) {
    function String(): string {
      if Number? then Itoa(n) else s
    }
  }

  /** kind is the type in the specification. */
  datatype Service = Service(namespace: string, name: string, ports: nat, kind: string, spec: string)

  datatype ObjectReference = ObjectReference(uid: string, resourceVersion: string, rest: string)

  datatype Endpoint = Endpoint(address: string, port: string, target: Option<ObjectReference>)

  datatype SSLCert = SSLCert(
    caSHA: string, crlSHA: string, pemSHA: string, expireTime: int, pemCertKey: string,
    uid: string, cn: Slice<string>, uncompared: string)

  datatype Backend = Backend(
    name: string, service: Option<Service>, port: IntOrString, sslPassthrough: bool,
    endpoints: Slice<Endpoint>, noServer: bool, alternativeBackends: Slice<string>,
    options: string, uncompared: string)

  datatype Location = Location(
    path: string, pathType: PathType, ingressPath: string, isDefBackend: bool, backend: string,
    service: Option<Service>, port: IntOrString, rewriteTarget: string, useRegex: bool,
    customHTTPErrors: Slice<int>, defaultBackend: Option<Service>,
    defaultBackendUpstreamName: string, options: string, uncompared: string)

  datatype Server = Server(
    hostname: string, sslPassthrough: bool, sslCert: Option<SSLCert>, locations: seq<Location>,
    aliases: seq<string>, redirectFromToWWW: bool, options: string, uncompared: string)

  datatype PassthroughBackend = PassthroughBackend(
    service: Option<Service>, port: IntOrString, backend: string, hostname: string)

  datatype L4Backend = L4Backend(name: string, namespace: string, port: IntOrString, options: string)

  datatype L4Service = L4Service(
    port: int, backend: L4Backend, endpoints: Slice<Endpoint>, service: Option<Service>)

  datatype Configuration = Configuration(
    backends: Slice<Backend>, servers: seq<Server>, tcpEndpoints: Slice<L4Service>,
    udpEndpoints: Slice<L4Service>, passthroughBackends: seq<PassthroughBackend>,
    backendConfigChecksum: string, configurationChecksum: string,
    defaultSSLCertificate: Option<SSLCert>)

  // The Ingress objects the configuration is compiled from.

  datatype BackendRef = BackendRef(service: string, port: IntOrString)

  datatype HTTPPath = HTTPPath(path: string, pathType: PathType, backend: BackendRef)

  datatype Rule = Rule(host: string, http: Option<seq<HTTPPath>>)

  datatype TLS = TLS(hosts: seq<string>, secretName: string)

  datatype Ingress = Ingress(
    namespace: string, name: string, annotations: map<string, string>, className: Option<string>,
    backend: Option<BackendRef>, rules: seq<Rule>, tls: seq<TLS>, rest: string)

  // Lists of locations.

  predicate Declares(locations: seq<Location>, path: string, t: PathType) {
    exists i :: 0 <= i < |locations| && locations[i].path == path && locations[i].pathType == t
  }

  lemma DeclaresAppend(ls: seq<Location>, l: Location, path: string, t: PathType)
    ensures Declares(ls + [l], path, t) <==> Declares(ls, path, t) || (l.path == path && l.pathType == t)
  {
    var all := ls + [l];
    assert all[|ls|] == l;
    if k :| 0 <= k < |ls| && ls[k].path == path && ls[k].pathType == t {
      assert all[k] == ls[k];
    }
  }

  /** No two locations share their path and type. */
  ghost predicate DistinctLocations(ls: seq<Location>) {
    forall i, j :: 0 <= i < j < |ls| ==> ls[i].path != ls[j].path || ls[i].pathType != ls[j].pathType
  }

  const DefUpstreamName: string := "upstream-default-backend"
  const DefServerName: string := "_"
  const RootLocation: string := "/"
}
