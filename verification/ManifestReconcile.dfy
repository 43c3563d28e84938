/**
 Planning the reconciliation of a service's HTTP manifests with discovery
 (internal/architecturemanifest/reconcile.go, `ReconcileHTTPManifests`).

 YAML reading and writing are functions of bytes (`Yaml`); an HTTP identity is its
 "METHOD path" text; the repository is a map from path to bytes, as in ManifestPublish.
 */
module ManifestReconcile {
  import opened Wrappers
  import opened Ordering
  import opened StableIdentity
  import opened ManifestPublish

  datatype Kind = Http(key: string) | Other

  datatype Operation = Operation(id: string, serviceId: string, kind: Kind, body: string)

  datatype Group = Group(id: string, text: string, operations: seq<string>)

  datatype Service = Service(id: string, name: string, operations: seq<string>, groups: seq<Group>, rest: string)

  /** The manifest formats: parsing validates, `body` is the text of a scaffold for an identity and
      its evidence, `untouched` compares a manifest with its scaffold. */
  datatype Yaml = Yaml(
    parseOperation: Bytes -> Option<Operation>,
    renderOperation: Operation -> Bytes,
    parseService: Bytes -> Option<Service>,
    rewrite: (Bytes, seq<string>, seq<Group>) -> Bytes,
    diagram: Operation -> Bytes,
    body: (string, string) -> string,
    untouched: Operation -> bool,
    idOf: string -> string,
    groupText: map<string, string> -> string)
  {
    /** What is written is read back, what parses is valid, rewriting twice is rewriting once, and
        a generated id ends in a digit of its digest. */
    ghost predicate Valid() {
      && (forall op: Operation | ValidId(op.id) :: parseOperation(renderOperation(op)) == Some(op))
      && (forall b: Bytes :: parseService(b).Some? ==> ValidService(parseService(b).value))
      && (forall b: Bytes, paths: seq<string>, groups: seq<Group> :: RewritesWell(b, paths, groups))
      && (forall key: string :: EndsInHex(idOf(key)))
    }

    ghost predicate RewritesWell(b: Bytes, paths: seq<string>, groups: seq<Group>) {
      var r := rewrite(b, paths, groups);
      && (parseService(b).Some? && parseService(r).Some? ==>
           parseService(r).value == parseService(b).value.(operations := paths, groups := groups))
      && rewrite(r, paths, groups) == r
    }
  }

  predicate EndsInHex(id: string) {
    id != "" && var c := id[|id| - 1]; '0' <= c <= '9' || 'a' <= c <= 'f'
  }

  /** `identifierPattern`. */
  predicate ValidId(id: string) {
    && 1 <= |id| <= 128 && 'a' <= id[0] <= 'z'
    && forall i | 0 <= i < |id| :: 'a' <= id[i] <= 'z' || '0' <= id[i] <= '9' || id[i] in {'.', '_', '-'}
  }

  function WithoutSuffix(s: string, suffix: string): string {
    if EndsWith(s, suffix) then s[..|s| - |suffix|] else s
  }

  predicate EndsWith(s: string, suffix: string) {
    |suffix| <= |s| && s[|s| - |suffix|..] == suffix
  }

  function Slashes(s: string): nat {
    if s == "" then 0 else (if s[0] == '/' then 1 else 0) + Slashes(s[1..])
  }

  /** `safeOperationPath`. */
  predicate SafePath(path: string) {
    var p := TrimSpace(path);
    && Slashes(p) == 1 && (EndsWith(p, ".yaml") || EndsWith(p, ".yml"))
    && (ENDPOINTS <= p || OPERATIONS <= p)
  }

  predicate ValidGroup(g: Group) {
    ValidId(g.id) && g.operations != []
  }

  /** `ValidateService`, as far as a reconciliation can change the outcome. */
  predicate ValidService(s: Service) {
    && (forall i | 0 <= i < |s.operations| :: SafePath(s.operations[i]))
    && (forall i, j | 0 <= i < j < |s.operations| :: s.operations[i] != s.operations[j])
    && (forall i | 0 <= i < |s.groups| :: ValidGroup(s.groups[i]))
  }

  // ---------- paths ----------

  const ARCHITECTURE := ".ai/architecture/"
  const ENDPOINTS := "endpoints/"
  const OPERATIONS := "operations/"
  const SERVICE := ".ai/architecture/service.yaml"
  const SERVICE_YML := ".ai/architecture/service.yml"

  function Full(relative: string): string {
    ARCHITECTURE + relative
  }

  function ManifestOf(id: string): string {
    ENDPOINTS + id + ".yaml"
  }

  /** `operationMermaidRelativePath`. */
  function DiagramOf(relative: string): string {
    ARCHITECTURE + WithoutSuffix(WithoutSuffix(relative, ".yaml"), ".yml") + ".mmd"
  }

  // ---------- the listed manifests ----------

  /** What a listed path holds. */
  type View = string -> Option<Operation>

  function OperationAt(yaml: Yaml, files: Files, relative: string): Option<Operation> {
    if Full(relative) in files then yaml.parseOperation(files[Full(relative)]) else None
  }

  function ViewOf(yaml: Yaml, files: Files): View {
    (relative: string) => OperationAt(yaml, files, relative)
  }

  predicate IsHttp(view: View, relative: string) {
    view(relative).Some? && view(relative).value.kind.Http?
  }

  function KeyAt(view: View, relative: string): string
    requires IsHttp(view, relative)
  {
    view(relative).value.kind.key
  }

  function IdAt(view: View, relative: string): string {
    if view(relative).Some? then view(relative).value.id else ""
  }

  /** An HTTP manifest that discovery does not know. */
  predicate IsStale(view: View, known: set<string>, relative: string) {
    IsHttp(view, relative) && KeyAt(view, relative) !in known
  }

  function Ids(view: View, listed: seq<string>): set<string> {
    set i | 0 <= i < |listed| :: IdAt(view, listed[i])
  }

  function HttpIds(view: View, listed: seq<string>): set<string> {
    set i | 0 <= i < |listed| && IsHttp(view, listed[i]) :: IdAt(view, listed[i])
  }

  function HttpKeys(view: View, listed: seq<string>): set<string> {
    set i | 0 <= i < |listed| && IsHttp(view, listed[i]) :: KeyAt(view, listed[i])
  }

  /** All listed manifests can be read and belong to the service, with distinct ids and HTTP
      identities, HTTP ones among the endpoints. */
  predicate Readable(view: View, serviceId: string, listed: seq<string>) {
    && (forall i | 0 <= i < |listed| :: view(listed[i]).Some? && view(listed[i]).value.serviceId == serviceId
                                        && (IsHttp(view, listed[i]) ==> ENDPOINTS <= listed[i]))
    && (forall i, j | 0 <= i < j < |listed| :: IdAt(view, listed[i]) != IdAt(view, listed[j]))
  }

  predicate DistinctIdentities(view: View, known: set<string>, listed: seq<string>) {
    forall i, j | 0 <= i < j < |listed| && IsHttp(view, listed[i]) && IsHttp(view, listed[j])
        && KeyAt(view, listed[i]) in known ::
      KeyAt(view, listed[i]) != KeyAt(view, listed[j])
  }

  /** A stale manifest may be removed: it is an untouched scaffold at its own place, and so is its
      diagram if there is one. */
  predicate Removable(yaml: Yaml, files: Files, op: Operation, relative: string) {
    && relative == ManifestOf(op.id) && op.kind.Http? && op.id == yaml.idOf(op.kind.key) && yaml.untouched(op)
    && (DiagramOf(relative) in files ==> files[DiagramOf(relative)] == yaml.diagram(op))
  }

  predicate StaleAreRemovable(yaml: Yaml, files: Files, view: View, known: set<string>, listed: seq<string>) {
    forall i | 0 <= i < |listed| && IsStale(view, known, listed[i]) ::
        Removable(yaml, files, view(listed[i]).value, listed[i])
  }

  function Removal(files: Files, path: string): seq<PlannedFile> {
    if path in files then [PlannedFile(path, files[path], "", true, true)] else []
  }

  /** Removals of the first `n` listed manifests. */
  function Removals(files: Files, view: View, known: set<string>, listed: seq<string>, n: nat): seq<PlannedFile>
    requires n <= |listed|
  {
    if n == 0 then []
    else
      var r := listed[n - 1];
      Removals(files, view, known, listed, n - 1)
      + if IsStale(view, known, r) then Removal(files, Full(r)) + Removal(files, DiagramOf(r)) else []
  }

  // ---------- directories ----------

  predicate Contains(s: string, c: char) {
    exists i | 0 <= i < |s| :: s[i] == c
  }

  /** A nested file, or a YAML file that the service does not list. */
  predicate Unexpected(directory: string, path: string, listed: seq<string>) {
    var prefix := ARCHITECTURE + directory;
    && prefix <= path
    && var name := path[|prefix|..];
       || Contains(name, '/')
       || ((EndsWith(name, ".yaml") || EndsWith(name, ".yml")) && directory + name !in listed)
  }

  predicate Tidy(files: Files, listed: seq<string>) {
    forall p | p in files :: !Unexpected(ENDPOINTS, p, listed) && !Unexpected(OPERATIONS, p, listed)
  }

  // ---------- the HTTP operations after the run ----------

  function FindKey(view: View, listed: seq<string>, key: string, n: nat): (r: string)
    requires n <= |listed|
  {
    if n == 0 then ""
    else if IsHttp(view, listed[n - 1]) && KeyAt(view, listed[n - 1]) == key then listed[n - 1]
    else FindKey(view, listed, key, n - 1)
  }

  /** Where the manifest of a discovered identity is, or will be. */
  function PlaceOf(idOf: string -> string, view: View, listed: seq<string>, key: string): string {
    if key in HttpKeys(view, listed) then FindKey(view, listed, key, |listed|) else ManifestOf(idOf(key))
  }

  function NameOf(idOf: string -> string, view: View, listed: seq<string>, key: string): string {
    if key in HttpKeys(view, listed) then IdAt(view, FindKey(view, listed, key, |listed|)) else idOf(key)
  }

  function Places(idOf: string -> string, view: View, listed: seq<string>, keys: seq<string>): (r: seq<string>)
    ensures |r| == |keys| && forall i | 0 <= i < |r| :: r[i] == PlaceOf(idOf, view, listed, keys[i])
  {
    seq(|keys|, i requires 0 <= i < |keys| => PlaceOf(idOf, view, listed, keys[i]))
  }

  function Names(idOf: string -> string, view: View, listed: seq<string>, keys: seq<string>): (r: seq<string>)
    ensures |r| == |keys| && forall i | 0 <= i < |r| :: r[i] == NameOf(idOf, view, listed, keys[i])
  {
    seq(|keys|, i requires 0 <= i < |keys| => NameOf(idOf, view, listed, keys[i]))
  }

  function NonHttp(view: View, listed: seq<string>): seq<string> {
    if listed == [] then []
    else
      var last := |listed| - 1;
      NonHttp(view, listed[..last]) + if IsHttp(view, listed[last]) then [] else [listed[last]]
  }

  function Scaffold(yaml: Yaml, serviceId: string, key: string, evidence: string): Operation {
    Operation(yaml.idOf(key), serviceId, Http(key), yaml.body(key, evidence))
  }

  /** A new identity can be scaffolded: its id is new, and nothing is in its place. */
  predicate Addable(yaml: Yaml, files: Files, ids: set<string>, key: string) {
    var id := yaml.idOf(key);
    && id !in ids && ValidId(id) && Full(ManifestOf(id)) !in files && DiagramOf(ManifestOf(id)) !in files
  }

  function Additions(yaml: Yaml, serviceId: string, present: set<string>, discovered: map<string, string>,
                     keys: seq<string>): seq<PlannedFile>
    requires forall k | k in keys :: k in discovered
  {
    if keys == [] then []
    else
      var key := keys[|keys| - 1];
      assert key in keys && forall k | k in keys[..|keys| - 1] :: k in keys;
      Additions(yaml, serviceId, present, discovered, keys[..|keys| - 1])
      + if key in present then []
        else [PlannedFile(Full(ManifestOf(yaml.idOf(key))), "",
            yaml.renderOperation(Scaffold(yaml, serviceId, key, discovered[key])), false, false)]
  }

  // ---------- groups ----------

  function Retained(ids: seq<string>, http: set<string>): seq<string> {
    if ids == [] then []
    else
      Retained(ids[..|ids| - 1], http) + if ids[|ids| - 1] in http then [] else [ids[|ids| - 1]]
  }

  /** The group loses all its members. */
  predicate Emptied(g: Group, http: set<string>) {
    Retained(g.operations, http) == [] && g.operations != []
  }

  function KeptGroups(groups: seq<Group>, http: set<string>): seq<Group> {
    if groups == [] then []
    else
      var g := groups[|groups| - 1];
      KeptGroups(groups[..|groups| - 1], http) + if Emptied(g, http) then []
          else [g.(operations := Retained(g.operations, http))]
  }

  /** The first group that held HTTP operations only, or a new one. */
  function HttpGroup(groups: seq<Group>, http: set<string>, otherwise: Group): Group {
    if groups == [] then otherwise
    else if Emptied(groups[0], http) then groups[0]
    else HttpGroup(groups[1..], http, otherwise)
  }

  function NewGroup(yaml: Yaml, discovered: map<string, string>): Group {
    Group("http-reconciled", yaml.groupText(discovered), [])
  }

  // ---------- the plan ----------

  /** The service after the run. */
  ghost function NextService(yaml: Yaml, view: View, service: Service, discovered: map<string, string>): Service {
    var keys := SortedKeys(discovered.Keys);
    var http := HttpIds(view, service.operations);
    service.(operations := Sort(NonHttp(view, service.operations) + Places(yaml.idOf, view, service.operations, keys)),
             groups := KeptGroups(service.groups, http)
                       + [HttpGroup(service.groups, http,
                           NewGroup(yaml, discovered)).(operations :=
                               Sort(Names(yaml.idOf, view, service.operations, keys)))])
  }

  predicate GroupsKnown(groups: seq<Group>, ids: set<string>) {
    forall i | 0 <= i < |groups| :: forall k | 0 <= k < |groups[i].operations| :: groups[i].operations[k] in ids
  }

  predicate GroupIsApart(kept: seq<Group>, id: string) {
    forall i | 0 <= i < |kept| :: kept[i].id != id
  }

  /** There is exactly one service manifest, it is valid, and discovery is about this service. */
  predicate HasService(yaml: Yaml, files: Files, project: string) {
    && SERVICE in files && SERVICE_YML !in files && yaml.parseService(files[SERVICE]).Some?
    && (project == yaml.parseService(files[SERVICE]).value.id
         || project == yaml.parseService(files[SERVICE]).value.name)
  }

  /** Every check on the inputs. */
  predicate Inspected(yaml: Yaml, files: Files, view: View, service: Service, discovered: map<string, string>) {
    && Readable(view, service.id, service.operations)
    && DistinctIdentities(view, discovered.Keys, service.operations)
    && StaleAreRemovable(yaml, files, view, discovered.Keys, service.operations)
    && Tidy(files, service.operations)
    && GroupsKnown(service.groups, Ids(view, service.operations))
    && (forall key | key in discovered && key !in HttpKeys(view, service.operations) ::
         Addable(yaml, files, Ids(view, service.operations), key))
    && GroupIsApart(KeptGroups(service.groups, HttpIds(view, service.operations)),
                    HttpGroup(service.groups, HttpIds(view, service.operations), NewGroup(yaml, discovered)).id)
  }

  /** The run is not refused. */
  ghost predicate Admissible(yaml: Yaml, files: Files, project: string, discovered: map<string, string>) {
    && discovered != map[] && HasService(yaml, files, project)
    && var service, view := yaml.parseService(files[SERVICE]).value, ViewOf(yaml, files);
       && Inspected(yaml, files, view, service, discovered)
       && var next := NextService(yaml, view, service, discovered);
          ValidService(next) && yaml.parseService(yaml.rewrite(files[SERVICE], next.operations, next.groups)).Some?
  }

  function ServiceChange(before: Bytes, after: Bytes): seq<PlannedFile> {
    if before == after then [] else [PlannedFile(SERVICE, before, after, true, false)]
  }

  /** The files to write: removals, additions, and the service manifest if it changes. */
  ghost function PlanFor(yaml: Yaml, files: Files, view: View, service: Service,
                         discovered: map<string, string>): seq<PlannedFile>
    requires SERVICE in files
  {
    var next := NextService(yaml, view, service, discovered);
    Removals(files, view, discovered.Keys, service.operations, |service.operations|)
    + Additions(yaml, service.id, HttpKeys(view, service.operations), discovered, SortedKeys(discovered.Keys))
    + ServiceChange(files[SERVICE], yaml.rewrite(files[SERVICE], next.operations, next.groups))
  }

  ghost function PlanOf(yaml: Yaml, files: Files, discovered: map<string, string>): seq<PlannedFile>
    requires SERVICE in files && yaml.parseService(files[SERVICE]).Some?
  {
    PlanFor(yaml, files, ViewOf(yaml, files), yaml.parseService(files[SERVICE]).value, discovered)
  }
}
