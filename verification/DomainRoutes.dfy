/** `NormalizeDomainRoutes` and `NormalizeDomainBackendProtocols` of internal/environment/repository.go. */
module DomainRoutes {
  import opened Options
  import opened Documents

  const ROUTES := "routes"
  const PATH := "path"
  const PATH_TYPE := "path_type"
  const SERVICE := "service"
  const SERVICE_PORT := "service_port"
  const ANNOTATIONS := "annotations"
  const BACKEND := "backend_protocol"

  /** The keys that decide the protocol, and those the backend normalization writes. */
  lemma OtherKeysDiffer()
    ensures "protocol" !in [ROUTES, PATH, PATH_TYPE, SERVICE, SERVICE_PORT] && "tls_enabled" !in [ROUTES, PATH, PATH_TYPE, SERVICE, SERVICE_PORT]
    ensures ANNOTATIONS !in [ROUTES, PATH, PATH_TYPE, SERVICE, SERVICE_PORT] && BACKEND !in [ROUTES, PATH, PATH_TYPE, SERVICE, SERVICE_PORT]
    ensures ANNOTATIONS != "protocol" && ANNOTATIONS != "tls_enabled" && ANNOTATIONS != "gateway" && ANNOTATIONS != BACKEND
    ensures BACKEND != "protocol" && BACKEND != "tls_enabled" && BACKEND != "gateway"
  {
    assert ROUTES[0] == 'r' && PATH[0] == 'p' && PATH_TYPE[0] == 'p' && SERVICE[0] == 's' && SERVICE_PORT[0] == 's';
    assert ANNOTATIONS[0] == 'a' && BACKEND[0] == 'b' && "protocol"[1] == 'r' && "tls_enabled"[0] == 't' && "gateway"[0] == 'g';
    assert PATH[1] == 'a' && PATH_TYPE[1] == 'a' && "protocol"[0] == 'p';
  }

  // ---------------------------------------------------------------- routes

  /** `defaultDomainRouteString` */
  function DefaultString(value: Value, fallback: string): string {
    if StringValue(value) == "" then fallback else StringValue(value)
  }

  /** A protocol name, trimmed and in lower case. */
  datatype Word = Http | Https | Grpc | Grpcs | Wss | Tcp | OtherWord(name: string)

  function ByName(name: string): Word {
    if name == "http" then Http
    else if name == "https" then Https
    else if name == "grpc" then Grpc
    else if name == "grpcs" then Grpcs
    else if name == "wss" then Wss
    else if name == "tcp" then Tcp
    else OtherWord(name)
  }

  function NameOf(word: Word): string {
    match word
    case Http => "http"
    case Https => "https"
    case Grpc => "grpc"
    case Grpcs => "grpcs"
    case Wss => "wss"
    case Tcp => "tcp"
    case OtherWord(name) => name
  }

  lemma NameOfByName(name: string)
    ensures NameOf(ByName(name)) == name
  {
  }

  /** The word in a field, unless the field has none. */
  function ReadWord(value: Value): Option<Word> {
    var name := Lower(Trim(StringValue(value)));
    if name == "" then None else Some(ByName(name))
  }

  /** A word that was read reads back as itself once it is stored. */
  lemma StoredWordReadsBack(value: Value)
    requires ReadWord(value).Some?
    ensures ReadWord(Text(NameOf(ReadWord(value).value))) == ReadWord(value)
  {
    var name := Lower(Trim(StringValue(value)));
    NameOfByName(name);
    LowerSettles(Trim(StringValue(value)));
    assert StringValue(Text(name)) == name && Trim(name) == name && Lower(name) == name;
  }

  function Protocol(domain: Fields): Word {
    var configured := ReadWord(Get(domain, "protocol"));
    if configured.Some? then configured.value else if BoolValue(Get(domain, "tls_enabled")) then Https else Http
  }

  predicate IsTcp(domain: Fields) { Protocol(domain).Tcp? }

  /** The route that the fields of an old domain stand for. */
  function LegacyRoute(domain: Fields): Value {
    Object(map[PATH := Text(DefaultString(Get(domain, PATH), "/")),
               PATH_TYPE := Text(DefaultString(Get(domain, PATH_TYPE), "Prefix")),
               SERVICE := Text(StringValue(Get(domain, SERVICE))),
               SERVICE_PORT := Get(domain, SERVICE_PORT)])
  }

  /** A route whose path and path type are filled in. */
  function Cleaned(route: Value): Value {
    if !route.Object? then route
    else
      Object(route.fields[PATH := Text(DefaultString(Get(route.fields, PATH), "/"))]
                         [PATH_TYPE := Text(DefaultString(Get(route.fields, PATH_TYPE), "Prefix"))])
  }

  function AllCleaned(routes: seq<Value>): (cleaned: seq<Value>)
    ensures |cleaned| == |routes| && forall i | 0 <= i < |routes| :: cleaned[i] == Cleaned(routes[i])
  {
    seq(|routes|, i requires 0 <= i < |routes| => Cleaned(routes[i]))
  }

  /** The fields old readers look at, taken from the first route. */
  function Mirrored(domain: Fields, first: Value): Fields {
    if !first.Object? then domain
    else domain[PATH := Get(first.fields, PATH)][PATH_TYPE := Get(first.fields, PATH_TYPE)]
               [SERVICE := Get(first.fields, SERVICE)][SERVICE_PORT := Get(first.fields, SERVICE_PORT)]
  }

  predicate HasRoutes(domain: Fields) {
    Get(domain, ROUTES).List? && Get(domain, ROUTES).items != []
  }

  function FoundRoutes(domain: Fields): (routes: seq<Value>)
    ensures routes != []
  {
    if HasRoutes(domain) then Get(domain, ROUTES).items else [LegacyRoute(domain)]
  }

  /** One domain after `NormalizeDomainRoutes`. */
  function Routed(domain: Fields): Fields {
    if IsTcp(domain) then domain
    else
      var routes := AllCleaned(FoundRoutes(domain));
      Mirrored(domain[ROUTES := List(routes)], routes[0])
  }

  // ---------------------------------------------------------------- what normalizing keeps

  /** `httpDomainRoutes`: the routes a domain has, if it can be read. */
  function HttpRoutes(domain: Fields): Option<seq<Value>> {
    if ROUTES !in domain then Some([LegacyRoute(domain)])
    else if domain[ROUTES].List? then Some(domain[ROUTES].items)
    else None
  }

  lemma MirroredLeaves(domain: Fields, first: Value, key: string)
    requires key != PATH && key != PATH_TYPE && key != SERVICE && key != SERVICE_PORT
    ensures Get(Mirrored(domain, first), key) == Get(domain, key) && (key in Mirrored(domain, first) <==> key in domain)
  {
  }

  lemma RoutedRoutes(domain: Fields)
    requires !IsTcp(domain)
    ensures Get(Routed(domain), ROUTES) == List(AllCleaned(FoundRoutes(domain))) && ROUTES in Routed(domain)
  {
    var routes := AllCleaned(FoundRoutes(domain));
    MirroredLeaves(domain[ROUTES := List(routes)], routes[0], ROUTES);
  }

  lemma SameValueChangesNothing(fields: Fields, key: string)
    requires key in fields
    ensures fields[key := Get(fields, key)] == fields
  {
  }

  lemma SlashAndPrefixAreTrimmed()
    ensures Trimmed("/") && Trimmed("Prefix")
  {
    assert "/"[0] == '/' && "Prefix"[0] == 'P' && "Prefix"[5] == 'x' && |"Prefix"| == 6;
  }

  /** The routes a domain serves stay as they are, cleaned, exactly when the domain has no routes entry or a non-empty
      list of routes; an empty list or anything else gives way to the legacy route. */
  lemma RoutesStayExactly(domain: Fields)
    requires !IsTcp(domain)
    ensures HttpRoutes(domain).Some? && HttpRoutes(Routed(domain)) == Some(AllCleaned(HttpRoutes(domain).value))
      <==> ROUTES !in domain || HasRoutes(domain)
  {
    RoutedRoutes(domain);
    if ROUTES !in domain {
      assert FoundRoutes(domain) == [LegacyRoute(domain)];
    }
  }

  /** A route is clean, and the legacy fields mirror the first one. */
  predicate Mirrors(domain: Fields, first: Value) {
    first.Object? ==>
      && Get(domain, PATH) == Get(first.fields, PATH) && Get(domain, PATH_TYPE) == Get(first.fields, PATH_TYPE)
      && Get(domain, SERVICE) == Get(first.fields, SERVICE) && Get(domain, SERVICE_PORT) == Get(first.fields, SERVICE_PORT)
      && PATH in domain && PATH_TYPE in domain && SERVICE in domain && SERVICE_PORT in domain
  }

  predicate IsRouted(domain: Fields) {
    || IsTcp(domain)
    || (HasRoutes(domain) && AllCleaned(Get(domain, ROUTES).items) == Get(domain, ROUTES).items
        && Mirrors(domain, Get(domain, ROUTES).items[0]))
  }

  lemma CleanedIsClean(route: Value)
    ensures Cleaned(Cleaned(route)) == Cleaned(route)
  {
    if route.Object? {
      SlashAndPrefixAreTrimmed();
      assert Cleaned(Cleaned(route)).fields == Cleaned(route).fields;
    }
  }

  lemma MirroredMirrors(domain: Fields, first: Value)
    ensures Mirrors(Mirrored(domain, first), first)
  {
  }

  lemma RoutedLeavesProtocol(domain: Fields)
    ensures Protocol(Routed(domain)) == Protocol(domain)
  {
    if !IsTcp(domain) {
      var routes := AllCleaned(FoundRoutes(domain));
      OtherKeysDiffer();
      MirroredLeaves(domain[ROUTES := List(routes)], routes[0], "protocol");
      MirroredLeaves(domain[ROUTES := List(routes)], routes[0], "tls_enabled");
    }
  }

  lemma AllCleanedIsClean(routes: seq<Value>)
    ensures AllCleaned(AllCleaned(routes)) == AllCleaned(routes)
  {
    forall i | 0 <= i < |routes| ensures AllCleaned(AllCleaned(routes))[i] == AllCleaned(routes)[i] {
      CleanedIsClean(routes[i]);
    }
  }

  /** Normalizing leaves clean routes, and legacy fields that mirror route 0. */
  lemma RoutedIsRouted(domain: Fields)
    ensures IsRouted(Routed(domain)) && (IsTcp(Routed(domain)) <==> IsTcp(domain))
  {
    RoutedLeavesProtocol(domain);
    if !IsTcp(domain) {
      var routes := AllCleaned(FoundRoutes(domain));
      RoutedRoutes(domain);
      AllCleanedIsClean(FoundRoutes(domain));
      MirroredMirrors(domain[ROUTES := List(routes)], routes[0]);
    }
  }

  lemma MirrorChangesNothing(domain: Fields, first: Value)
    requires Mirrors(domain, first)
    ensures Mirrored(domain, first) == domain
  {
    if first.Object? {
      SameValueChangesNothing(domain, PATH);
      SameValueChangesNothing(domain, PATH_TYPE);
      SameValueChangesNothing(domain, SERVICE);
      SameValueChangesNothing(domain, SERVICE_PORT);
    }
  }

  /** What is normalized already is left alone. */
  lemma RoutedIsStable(domain: Fields)
    requires IsRouted(domain)
    ensures Routed(domain) == domain
  {
    if !IsTcp(domain) {
      var routes := Get(domain, ROUTES).items;
      assert FoundRoutes(domain) == routes;
      SameValueChangesNothing(domain, ROUTES);
      MirrorChangesNothing(domain, routes[0]);
    }
  }

  /** Normalizing routes twice is normalizing them once. */
  lemma SecondRoutingChangesNothing(domain: Fields)
    ensures Routed(Routed(domain)) == Routed(domain)
  {
    RoutedIsRouted(domain);
    RoutedIsStable(Routed(domain));
  }

  // ---------------------------------------------------------------- backend protocols

  const HIGRESS := "higress.io/backend-protocol"
  const NGINX := "nginx.ingress.kubernetes.io/backend-protocol"

  /** What the annotations of older releases ask for. */
  datatype Hint = NoHint | HttpsHint | GrpcsHint

  function HintOf(text: string): Hint {
    if text == "HTTPS" then HttpsHint else if text == "GRPCS" then GrpcsHint else NoHint
  }

  function LegacyBackend(annotations: Fields): Hint {
    var higress := Upper(Trim(StringValue(Get(annotations, HIGRESS))));
    HintOf(if higress != "" then higress else Upper(Trim(StringValue(Get(annotations, NGINX)))))
  }

  function GuessedBackend(protocol: Word, legacy: Hint): Word {
    if protocol.Grpc? || protocol.Grpcs? then (if legacy.GrpcsHint? then Grpcs else Grpc)
    else if protocol.Wss? then Http
    else if legacy.HttpsHint? then Https else Http
  }

  function BackendOf(domain: Fields): Word {
    var configured := ReadWord(Get(domain, BACKEND));
    if configured.Some? then configured.value
    else GuessedBackend(Protocol(domain), LegacyBackend(FieldsOf(Get(domain, ANNOTATIONS))))
  }

  predicate IsNginx(domain: Fields) { Lower(StringValue(Get(domain, "gateway"))) == "nginx" }

  /** The annotations that tell the gateway the protocol of the service. */
  function Annotated(annotations: Fields, backend: Word, nginx: bool): Fields {
    var bare := annotations - {HIGRESS, NGINX};
    if backend in {Https, Grpc, Grpcs}
    then bare[(if nginx then NGINX else HIGRESS) := Text(Upper(NameOf(backend)))]
    else bare
  }

  /** One domain after `NormalizeDomainBackendProtocols`. */
  function Backed(domain: Fields): Fields {
    var annotations := FieldsOf(Get(domain, ANNOTATIONS));
    if IsTcp(domain) then (domain - {BACKEND})[ANNOTATIONS := Object(annotations - {HIGRESS, NGINX})]
    else
      var backend := BackendOf(domain);
      domain[BACKEND := Text(NameOf(backend))][ANNOTATIONS := Object(Annotated(annotations, backend, IsNginx(domain)))]
  }

  /** Lower-case letters and nothing else. */
  predicate IsPlain(name: string) {
    name != "" && forall i | 0 <= i < |name| :: 'a' <= name[i] <= 'z'
  }

  lemma PlainIsSettled(name: string)
    requires IsPlain(name)
    ensures Lower(Trim(StringValue(Text(name)))) == name
  {
    assert 'a' <= name[0] <= 'z' && 'a' <= name[|name| - 1] <= 'z';
    assert Trimmed(name);
    assert Lower(name) == name;
  }

  lemma GuessIsPlain(word: Word)
    requires word.Http? || word.Https? || word.Grpc? || word.Grpcs?
    ensures IsPlain(NameOf(word))
  {
    match word
    case Http =>
    case Https =>
    case Grpc =>
    case Grpcs =>
  }

  lemma PlainReadsAs(name: string, word: Word)
    requires IsPlain(name) && ByName(name) == word
    ensures ReadWord(Text(name)) == Some(word)
  {
    PlainIsSettled(name);
  }

  lemma GuessReadsBack(word: Word)
    requires word.Http? || word.Https? || word.Grpc? || word.Grpcs?
    ensures ReadWord(Text(NameOf(word))) == Some(word)
  {
    GuessIsPlain(word);
    PlainReadsAs(NameOf(word), word);
  }

  /** The backend that is stored is the backend that is read back. */
  lemma BackendReadsBack(domain: Fields)
    ensures ReadWord(Text(NameOf(BackendOf(domain)))) == Some(BackendOf(domain))
  {
    if ReadWord(Get(domain, BACKEND)).Some? {
      StoredWordReadsBack(Get(domain, BACKEND));
    } else {
      GuessReadsBack(BackendOf(domain));
    }
  }

  lemma BackedLeaves(domain: Fields, key: string)
    requires key != BACKEND && key != ANNOTATIONS
    ensures Get(Backed(domain), key) == Get(domain, key) && (key in Backed(domain) <==> key in domain)
  {
  }

  lemma AnnotatedAgain(annotations: Fields, backend: Word, nginx: bool)
    ensures Annotated(Annotated(annotations, backend, nginx), backend, nginx) == Annotated(annotations, backend, nginx)
  {
  }

  lemma BackedLeavesProtocol(domain: Fields)
    ensures Protocol(Backed(domain)) == Protocol(domain) && IsNginx(Backed(domain)) == IsNginx(domain)
  {
    OtherKeysDiffer();
    BackedLeaves(domain, "protocol");
    BackedLeaves(domain, "tls_enabled");
    BackedLeaves(domain, "gateway");
  }

  lemma RemovingNothing(fields: Fields, keys: set<string>)
    requires fields.Keys !! keys
    ensures fields - keys == fields
  {
  }

  lemma BackedTcpFields(domain: Fields)
    requires IsTcp(domain)
    ensures var once := Backed(domain);
      && BACKEND !in once && ANNOTATIONS in once
      && Get(once, ANNOTATIONS) == Object(FieldsOf(Get(domain, ANNOTATIONS)) - {HIGRESS, NGINX})
  {
    OtherKeysDiffer();
  }

  lemma BackedTcpAgain(domain: Fields)
    requires IsTcp(domain)
    ensures Backed(Backed(domain)) == Backed(domain)
  {
    var once := Backed(domain);
    BackedLeavesProtocol(domain);
    BackedTcpFields(domain);
    RemovingNothing(once, {BACKEND});
    RemovingNothing(FieldsOf(Get(domain, ANNOTATIONS)) - {HIGRESS, NGINX}, {HIGRESS, NGINX});
    SameValueChangesNothing(once, ANNOTATIONS);
  }

  /** Normalizing backend protocols twice is normalizing them once. */
  lemma SecondBackingChangesNothing(domain: Fields)
    ensures Backed(Backed(domain)) == Backed(domain)
  {
    if IsTcp(domain) {
      BackedTcpAgain(domain);
    } else {
      var once := Backed(domain);
      BackedLeavesProtocol(domain);
      BackendReadsBack(domain);
      assert BackendOf(once) == BackendOf(domain);
      AnnotatedAgain(FieldsOf(Get(domain, ANNOTATIONS)), BackendOf(domain), IsNginx(domain));
      SameValueChangesNothing(once, BACKEND);
      SameValueChangesNothing(once, ANNOTATIONS);
    }
  }

  /** Backend protocols have no effect on routes. */
  lemma BackingKeepsRoutes(domain: Fields)
    ensures HttpRoutes(Backed(domain)) == HttpRoutes(domain)
    ensures IsRouted(domain) ==> IsRouted(Backed(domain))
  {
    OtherKeysDiffer();
    var keys := [ROUTES, PATH, PATH_TYPE, SERVICE, SERVICE_PORT];
    assert keys[0] in keys && keys[1] in keys && keys[2] in keys && keys[3] in keys && keys[4] in keys;
    BackedLeaves(domain, ROUTES);
    BackedLeaves(domain, PATH);
    BackedLeaves(domain, PATH_TYPE);
    BackedLeaves(domain, SERVICE);
    BackedLeaves(domain, SERVICE_PORT);
    BackedLeaves(domain, "protocol");
    BackedLeaves(domain, "tls_enabled");
  }

  /** Loading a document runs both; loading what was loaded changes nothing. */
  lemma SecondLoadChangesNothing(domain: Fields)
    ensures var once := Backed(Routed(domain)); Backed(Routed(once)) == once
  {
    RoutedIsRouted(domain);
    BackingKeepsRoutes(Routed(domain));
    RoutedIsStable(Backed(Routed(domain)));
    SecondBackingChangesNothing(Routed(domain));
  }

  // ---------------------------------------------------------------- what is written, in terms of the document

  lemma TheNames()
    ensures NameOf(Tcp) == "tcp" && NameOf(Http) == "http" && NameOf(Https) == "https"
    ensures NameOf(Grpc) == "grpc" && NameOf(Grpcs) == "grpcs" && NameOf(Wss) == "wss"
  {
  }

  /** The protocol of a domain, by name. */
  lemma ProtocolMeans(domain: Fields)
    ensures var name := Lower(Trim(StringValue(Get(domain, "protocol"))));
      if name != "" then NameOf(Protocol(domain)) == name
      else Protocol(domain) == if Get(domain, "tls_enabled") == Bool(true) then Https else Http
  {
    NameOfByName(Lower(Trim(StringValue(Get(domain, "protocol")))));
  }

  /** A route gets its trimmed path and path type, or the defaults, and keeps everything else. */
  lemma CleanedMeans(route: Value, key: string)
    ensures route.Object? ==>
      && Cleaned(route).Object?
      && Get(Cleaned(route).fields, "path") == Text(if StringValue(Get(route.fields, "path")) != "" then StringValue(Get(route.fields, "path")) else "/")
      && Get(Cleaned(route).fields, "path_type") ==
           Text(if StringValue(Get(route.fields, "path_type")) != "" then StringValue(Get(route.fields, "path_type")) else "Prefix")
      && (key != "path" && key != "path_type" ==> Get(Cleaned(route).fields, key) == Get(route.fields, key))
    ensures !route.Object? ==> Cleaned(route) == route
  {
    assert PATH == "path" && PATH_TYPE == "path_type" && |PATH| != |PATH_TYPE|;
  }

  /** The routes of a domain after the call: those it has, each of them cleaned, or the one its old fields stand for. */
  lemma RoutedMeans(domain: Fields, key: string, i: nat)
    ensures IsTcp(domain) ==> Routed(domain) == domain
    ensures !IsTcp(domain) ==>
      && Get(Routed(domain), "routes").List?
      && (if HasRoutes(domain) then
            && |Get(Routed(domain), "routes").items| == |Get(domain, "routes").items|
            && (i < |Get(domain, "routes").items| ==> Get(Routed(domain), "routes").items[i] == Cleaned(Get(domain, "routes").items[i]))
          else
            && |Get(Routed(domain), "routes").items| == 1
            && Get(Routed(domain), "routes").items[0] == Cleaned(LegacyRoute(domain)))
    ensures key !in {"routes", "path", "path_type", "service", "service_port"} ==> Get(Routed(domain), key) == Get(domain, key)
    ensures HasRoutes(domain) <==> Get(domain, "routes").List? && |Get(domain, "routes").items| > 0
  {
    if !IsTcp(domain) {
      RoutedRoutes(domain);
      var routes := AllCleaned(FoundRoutes(domain));
      if key !in {"routes", "path", "path_type", "service", "service_port"} {
        MirroredLeaves(domain[ROUTES := List(routes)], routes[0], key);
      }
    }
  }

  lemma LegacyRouteMeans(domain: Fields)
    ensures LegacyRoute(domain).Object?
    ensures var route := LegacyRoute(domain).fields;
      && route.Keys == {"path", "path_type", "service", "service_port"}
      && StringValue(route["path"]) == (if StringValue(Get(domain, "path")) != "" then StringValue(Get(domain, "path")) else "/")
      && StringValue(route["path_type"]) ==
           (if StringValue(Get(domain, "path_type")) != "" then StringValue(Get(domain, "path_type")) else "Prefix")
      && StringValue(route["service"]) == StringValue(Get(domain, "service"))
      && route["service_port"] == Get(domain, "service_port")
  {
    SlashAndPrefixAreTrimmed();
    assert PATH[0] == 'p' && |PATH| == 4 && |PATH_TYPE| == 9 && SERVICE[0] == 's' && |SERVICE| == 7 && |SERVICE_PORT| == 12;
  }

  /** What the annotations of older releases say: the first non-empty one, in upper case. */
  function LegacyText(domain: Fields): string {
    var annotations := FieldsOf(Get(domain, "annotations"));
    var higress := Upper(Trim(StringValue(Get(annotations, "higress.io/backend-protocol"))));
    if higress != "" then higress else Upper(Trim(StringValue(Get(annotations, "nginx.ingress.kubernetes.io/backend-protocol"))))
  }

  lemma LegacyMeans(domain: Fields)
    ensures LegacyBackend(FieldsOf(Get(domain, ANNOTATIONS))).HttpsHint? <==> LegacyText(domain) == "HTTPS"
    ensures LegacyBackend(FieldsOf(Get(domain, ANNOTATIONS))).GrpcsHint? <==> LegacyText(domain) == "GRPCS"
  {
    assert "HTTPS"[0] == 'H' && "GRPCS"[0] == 'G';
  }

  /** Every gRPC at the edge is gRPC behind it; the rest is plain unless an old annotation said HTTPS. */
  function GuessFrom(protocol: Word, legacy: string): Word {
    if protocol == Grpc || protocol == Grpcs then if legacy == "GRPCS" then Grpcs else Grpc
    else if protocol == Wss then Http
    else if legacy == "HTTPS" then Https else Http
  }

  /** The backend protocol: the configured one, or else a guess from the protocol at the edge and the old annotations. */
  lemma BackendMeans(domain: Fields)
    ensures var configured, protocol := Lower(Trim(StringValue(Get(domain, "backend_protocol")))), Protocol(domain);
      && (configured != "" ==> NameOf(BackendOf(domain)) == configured)
      && (configured == "" ==> BackendOf(domain) == GuessFrom(protocol, LegacyText(domain)))
  {
    LegacyMeans(domain);
    NameOfByName(Lower(Trim(StringValue(Get(domain, "backend_protocol")))));
  }

  /** For the annotations of a raw TCP port no protocol is left over. */
  lemma TcpMeans(domain: Fields, key: string)
    requires IsTcp(domain)
    ensures BACKEND !in Backed(domain) && Get(Backed(domain), ANNOTATIONS).Object?
    ensures Get(Backed(domain), ANNOTATIONS).fields == FieldsOf(Get(domain, ANNOTATIONS)) - {HIGRESS, NGINX}
  {
    BackedTcpFields(domain);
  }

  /** Otherwise the protocol is stored, and the annotation of the gateway tells it, if it is encrypted or gRPC. */
  lemma HttpMeans(domain: Fields)
    requires !IsTcp(domain)
    ensures Get(Backed(domain), BACKEND) == Text(NameOf(BackendOf(domain)))
    ensures Get(Backed(domain), ANNOTATIONS) == Object(Annotated(FieldsOf(Get(domain, ANNOTATIONS)), BackendOf(domain), IsNginx(domain)))
  {
    OtherKeysDiffer();
  }

  /** Of the two annotations that name a protocol at most one is left; every other annotation stays. */
  lemma AnnotationsMean(annotations: Fields, backend: Word, nginx: bool, key: string)
    ensures var after, named := Annotated(annotations, backend, nginx), backend == Https || backend == Grpc || backend == Grpcs;
      && (key !in {HIGRESS, NGINX} ==> Get(after, key) == Get(annotations, key))
      && Get(after, HIGRESS) == (if named && !nginx then Text(Upper(NameOf(backend))) else Null)
      && Get(after, NGINX) == (if named && nginx then Text(Upper(NameOf(backend))) else Null)
  {
    assert HIGRESS[0] == 'h' && NGINX[0] == 'n';
  }

  lemma KeysAre(domain: Fields)
    ensures HIGRESS == "higress.io/backend-protocol" && NGINX == "nginx.ingress.kubernetes.io/backend-protocol"
    ensures BACKEND == "backend_protocol" && ANNOTATIONS == "annotations"
    ensures IsNginx(domain) <==> Lower(StringValue(Get(domain, "gateway"))) == "nginx"
  {
  }

  // ---------------------------------------------------------------- the code

  function OnObject(value: Value, f: Fields -> Fields): Value {
    if value.Object? then Object(f(value.fields)) else value
  }

  function OnDomains(doc: Fields, f: Fields -> Fields): Fields {
    if !Get(doc, "domains").List? then doc
    else
      var items := doc["domains"].items;
      doc["domains" := List(seq(|items|, i requires 0 <= i < |items| => OnObject(items[i], f)))]
  }

  lemma OnDomainsMeans(doc: Fields, f: Fields -> Fields, key: string, i: nat)
    ensures key != "domains" ==> Get(OnDomains(doc, f), key) == Get(doc, key)
    ensures !Get(doc, "domains").List? ==> OnDomains(doc, f) == doc
    ensures Get(doc, "domains").List? ==>
      && Get(OnDomains(doc, f), "domains").List? && |Get(OnDomains(doc, f), "domains").items| == |Get(doc, "domains").items|
      && (i < |Get(doc, "domains").items| ==>
            var before, after := Get(doc, "domains").items[i], Get(OnDomains(doc, f), "domains").items[i];
            after == if before.Object? then Object(f(before.fields)) else before)
  {
  }

  /** Loading a document: routes first, then backend protocols. */
  function Loaded(doc: Fields): Fields { OnDomains(OnDomains(doc, Routed), Backed) }

  /** Loading what was loaded and saved changes nothing in the whole document. */
  lemma ReloadChangesNothing(doc: Fields)
    ensures Loaded(Loaded(doc)) == Loaded(doc)
  {
    if Get(doc, "domains").List? {
      var items := doc["domains"].items;
      var once, twice := Loaded(doc)["domains"].items, Loaded(Loaded(doc))["domains"].items;
      forall i | 0 <= i < |items| ensures twice[i] == once[i] {
        if items[i].Object? {
          SecondLoadChangesNothing(items[i].fields);
        }
      }
      assert twice == once;
    }
  }

  method CleanRoutes(found: seq<Value>) returns (routes: seq<Value>)
    ensures routes == AllCleaned(found)
  {
    routes := found;
    var i := 0;
    while i < |found|
      invariant 0 <= i <= |found| == |routes|
      invariant forall k | 0 <= k < i :: routes[k] == Cleaned(found[k])
      invariant forall k | i <= k < |found| :: routes[k] == found[k]
    {
      routes := routes[i := Cleaned(routes[i])];
      i := i + 1;
    }
  }

  /** The legacy fields take over the first route. */
  method MirrorFirst(found: Fields, first: Value) returns (domain: Fields)
    ensures domain == Mirrored(found, first)
  {
    domain := found;
    if first.Object? {
      domain := domain[PATH := Get(first.fields, PATH)];
      domain := domain[PATH_TYPE := Get(first.fields, PATH_TYPE)];
      domain := domain[SERVICE := Get(first.fields, SERVICE)];
      domain := domain[SERVICE_PORT := Get(first.fields, SERVICE_PORT)];
    }
  }

  method RouteDomain(found: Fields) returns (domain: Fields)
    ensures domain == Routed(found)
  {
    if IsTcp(found) {
      return found;
    }
    var routes := if HasRoutes(found) then Get(found, ROUTES).items else [LegacyRoute(found)];
    var cleaned := CleanRoutes(routes);
    assert routes == FoundRoutes(found);
    domain := MirrorFirst(found[ROUTES := List(cleaned)], cleaned[0]);
  }

  method NormalizeDomainRoutes(doc: Document)
    modifies doc
    ensures doc.fields == OnDomains(old(doc.fields), Routed)
  {
    if !Get(doc.fields, "domains").List? {
      return;
    }
    var found := doc.fields["domains"].items;
    var domains := found;
    var i := 0;
    while i < |found|
      invariant 0 <= i <= |found| == |domains| && doc.fields == old(doc.fields)
      invariant forall k | 0 <= k < i :: domains[k] == OnObject(found[k], Routed)
      invariant forall k | i <= k < |found| :: domains[k] == found[k]
    {
      if domains[i].Object? {
        var domain := RouteDomain(domains[i].fields);
        domains := domains[i := Object(domain)];
      }
      i := i + 1;
    }
    doc.fields := doc.fields["domains" := List(domains)];
    assert domains == seq(|found|, i requires 0 <= i < |found| => OnObject(found[i], Routed));
  }

  method ChooseBackend(found: Fields) returns (backend: Word)
    ensures backend == BackendOf(found)
  {
    var configured := ReadWord(Get(found, BACKEND));
    if configured.Some? {
      return configured.value;
    }
    return GuessedBackend(Protocol(found), LegacyBackend(FieldsOf(Get(found, ANNOTATIONS))));
  }

  method Annotate(found: Fields, backend: Word, nginx: bool) returns (annotations: Fields)
    ensures annotations == Annotated(found, backend, nginx)
  {
    annotations := found - {HIGRESS, NGINX};
    if backend in {Https, Grpc, Grpcs} {
      if nginx {
        annotations := annotations[NGINX := Text(Upper(NameOf(backend)))];
      } else {
        annotations := annotations[HIGRESS := Text(Upper(NameOf(backend)))];
      }
    }
  }

  method BackDomain(found: Fields) returns (domain: Fields)
    ensures domain == Backed(found)
  {
    if IsTcp(found) {
      return (found - {BACKEND})[ANNOTATIONS := Object(FieldsOf(Get(found, ANNOTATIONS)) - {HIGRESS, NGINX})];
    }
    var backend := ChooseBackend(found);
    var annotations := Annotate(FieldsOf(Get(found, ANNOTATIONS)), backend, IsNginx(found));
    domain := found[BACKEND := Text(NameOf(backend))];
    domain := domain[ANNOTATIONS := Object(annotations)];
  }

  method NormalizeDomainBackendProtocols(doc: Document)
    modifies doc
    ensures doc.fields == OnDomains(old(doc.fields), Backed)
  {
    if !Get(doc.fields, "domains").List? {
      return;
    }
    var found := doc.fields["domains"].items;
    var domains := found;
    var i := 0;
    while i < |found|
      invariant 0 <= i <= |found| == |domains| && doc.fields == old(doc.fields)
      invariant forall k | 0 <= k < i :: domains[k] == OnObject(found[k], Backed)
      invariant forall k | i <= k < |found| :: domains[k] == found[k]
    {
      if domains[i].Object? {
        var domain := BackDomain(domains[i].fields);
        domains := domains[i := Object(domain)];
      }
      i := i + 1;
    }
    doc.fields := doc.fields["domains" := List(domains)];
    assert domains == seq(|found|, i requires 0 <= i < |found| => OnObject(found[i], Backed));
  }
}
