/**
 * Value-level model of the push pass in rocommand/ro_rosrs_sync.py.
 *
 * A local and a remote research object (RO) are represented by their
 * abstract state: the aggregated resources, their classification, the
 * annotation nodes, the change registry and the remote's entity tags.
 * Each store operation the pass uses is a function from state to state,
 * and the pass itself is four folds, one per loop of the source:
 * PushResources (local resources), DeaggregateRemoteOnly (remote
 * resources), PushAnnotations (local annotations) and
 * DeleteRemoteOnlyAnnotations (remote annotations), composed by Push.
 * The imperative pass in module RoSync is proved equal to Push.
 */
module RoSyncModel {
  import opened Wrappers

  /** A resource path relative to the RO root: the join key between the two stores. */
  type Path = string

  /** The action codes of the pass (ro_rosrs_sync.py lines 16-26). */
  datatype ActionKind =
    | CreateRo | RoExists
    | AggregateInternal | AggregateExternal | AggregateAnnotation
    | UpdateOverwrite | Update | UpdateAnnotation
    | Skip | Delete | DeleteAnnotation

  /** The numeric value of each action code. */
  function Code(k: ActionKind): (c: int)
    ensures 1 <= c <= 11
  {
    match k
    case CreateRo => 1
    case RoExists => 2
    case AggregateInternal => 3
    case AggregateExternal => 4
    case AggregateAnnotation => 5
    case UpdateOverwrite => 6
    case Update => 7
    case UpdateAnnotation => 8
    case Skip => 9
    case Delete => 10
    case DeleteAnnotation => 11
  }

  /** Decodes a numeric action code; the inverse of Code. */
  function KindOfCode(c: int): (k: Option<ActionKind>)
    ensures k.Some? <==> 1 <= c <= 11
    ensures k.Some? ==> Code(k.value) == c
  {
    if c == 1 then Some(CreateRo)
    else if c == 2 then Some(RoExists)
    else if c == 3 then Some(AggregateInternal)
    else if c == 4 then Some(AggregateExternal)
    else if c == 5 then Some(AggregateAnnotation)
    else if c == 6 then Some(UpdateOverwrite)
    else if c == 7 then Some(Update)
    else if c == 8 then Some(UpdateAnnotation)
    else if c == 9 then Some(Skip)
    else if c == 10 then Some(Delete)
    else if c == 11 then Some(DeleteAnnotation)
    else None
  }

  /** The codes are pairwise distinct: decoding a code gives back its kind. */
  lemma CodeRoundTrip(k: ActionKind)
    ensures KindOfCode(Code(k)) == Some(k)
  {
  }

  /**
   * What a yielded pair names. Most yields carry the RO-relative path;
   * the skip of an external resource and the update of an annotation
   * name the local URI, the two deletions name the remote URI.
   */
  datatype Item = RelPath(path: Path) | LocalUri(path: Path) | RemoteUri(path: Path)

  /** One yielded `(ACTION_*, item)` pair. */
  datatype Action = Action(kind: ActionKind, item: Item)

  /** How the local RO classifies one of its resources. */
  datatype ResourceKind = Internal | External | Neither

  /** The identity of a local annotation node: an RDF blank node, or a URI (given by its path). */
  datatype Node = Blank(id: string) | Named(path: Path)

  datatype LocalAnnotation = LocalAnnotation(node: Node, body: Path, target: Path)

  datatype RemoteAnnotation = RemoteAnnotation(node: Path, body: Path, target: Path)

  /** The two attributes the registry records per resource. */
  datatype Attr = ETag | Checksum

  /** The change registry; a stored value may itself be None (no etag header). */
  type Registry = map<(Path, Attr), Option<string>>

  /** The answer to a HEAD request: the status and the etag header, if any. */
  datatype Head = Head(status: int, etag: Option<string>)

  /**
   * What the remote service answers that the model cannot compute: the
   * etag returned by the k-th upload and the node path returned by the
   * k-th annotation creation.
   */
  datatype Service = Service(etags: nat -> Option<string>, nodes: nat -> Path)

  /**
   * The local RO: aggregated resources in enumeration order, their
   * classification, the checksum of each readable file, the annotation
   * nodes, the in-memory registry and the registry as last saved.
   */
  datatype Local = Local(
    resources: seq<Path>,
    kinds: map<Path, ResourceKind>,
    checksums: map<Path, string>,
    annotations: seq<LocalAnnotation>,
    registry: Registry,
    saved: Registry)

  /**
   * The remote RO: aggregated resources, the HEAD answer per path, the
   * annotation nodes, and how many uploads and annotation creations it has
   * answered so far (the indices into the Service).
   */
  datatype Remote = Remote(
    resources: seq<Path>,
    heads: map<Path, Head>,
    annotations: seq<RemoteAnnotation>,
    uploads: nat,
    minted: nat)

  /** The exceptions that abort the pass. */
  datatype SyncError = HeadFailed(path: Path, status: int) | Unreadable(path: Path)

  /** The state of a pass: both stores, the actions yielded so far, and the exception if one was raised. */
  datatype Pass = Pass(local: Local, remote: Remote, actions: seq<Action>, error: Option<SyncError>)

  // ---------------------------------------------------------------------
  // Store queries

  function KindOf(l: Local, p: Path): ResourceKind
  {
    if p in l.kinds then l.kinds[p] else Neither
  }

  predicate IsLocalAnnotationNode(l: Local, p: Path)
  {
    exists a :: a in l.annotations && a.node == Named(p)
  }

  predicate IsRemoteAnnotationNode(r: Remote, p: Path)
  {
    exists a :: a in r.annotations && a.node == p
  }

  /** HEAD on a path the remote does not know answers 404. */
  function HeadOf(r: Remote, p: Path): Head
  {
    if p in r.heads then r.heads[p] else Head(404, None)
  }

  /** `registry.get((p, attr), None)`. */
  function Lookup(reg: Registry, p: Path, attr: Attr): Option<string>
  {
    if (p, attr) in reg then reg[(p, attr)] else None
  }

  /** Python truthiness of an optional string: neither None nor empty. */
  predicate Truthy(v: Option<string>)
  {
    v.Some? && v.value != ""
  }

  // ---------------------------------------------------------------------
  // Store operations

  /** The two registry writes after a push: the returned etag and the checksum. */
  function Recorded(l: Local, p: Path, etag: Option<string>, sum: string): Local
  {
    l.(registry := l.registry[(p, ETag) := etag][(p, Checksum) := Some(sum)])
  }

  /** `aggregateResourceInt`: the remote aggregates p and answers the next etag. */
  function AfterAggregateInt(r: Remote, p: Path, svc: Service): Remote
  {
    r.(resources := r.resources + [p],
       heads := r.heads[p := Head(200, svc.etags(r.uploads))],
       uploads := r.uploads + 1)
  }

  /** `updateResourceInt`: the remote replaces p's content and answers the next etag. */
  function AfterUpdateInt(r: Remote, p: Path, svc: Service): Remote
  {
    r.(heads := r.heads[p := Head(200, svc.etags(r.uploads))],
       uploads := r.uploads + 1)
  }

  /** `aggregateResourceExt`. */
  function AfterAggregateExt(r: Remote, p: Path): Remote
  {
    r.(resources := r.resources + [p])
  }

  /** The paths of xs that are not in gone, in order. */
  function RemoveAll(xs: seq<Path>, gone: set<Path>): seq<Path>
  {
    if xs == [] then []
    else if xs[0] in gone then RemoveAll(xs[1..], gone)
    else [xs[0]] + RemoveAll(xs[1..], gone)
  }

  /** `deaggregateResource`. */
  function AfterDeaggregate(r: Remote, p: Path): Remote
  {
    r.(resources := RemoveAll(r.resources, {p}))
  }

  /** `addAnnotationNode`: the remote mints the next node path. */
  function AfterAddAnnotation(r: Remote, body: Path, target: Path, svc: Service): Remote
  {
    r.(annotations := r.annotations + [RemoteAnnotation(svc.nodes(r.minted), body, target)],
       minted := r.minted + 1)
  }

  /** `updateAnnotationNode`: every remote entry for node n gets the new body and target. */
  function AfterUpdateAnnotation(r: Remote, n: Path, body: Path, target: Path): Remote
  {
    r.(annotations := seq(|r.annotations|, i requires 0 <= i < |r.annotations| =>
         if r.annotations[i].node == n then RemoteAnnotation(n, body, target) else r.annotations[i]))
  }

  /** The annotations of xs whose node is not in gone, in order. */
  function DropNodes(xs: seq<RemoteAnnotation>, gone: set<Path>): seq<RemoteAnnotation>
  {
    if xs == [] then []
    else if xs[0].node in gone then DropNodes(xs[1..], gone)
    else [xs[0]] + DropNodes(xs[1..], gone)
  }

  /** `deleteAnnotationNode`. */
  function AfterDeleteAnnotation(r: Remote, n: Path): Remote
  {
    r.(annotations := DropNodes(r.annotations, {n}))
  }

  /** `replaceUri`: every local annotation whose node is from gets node to. */
  function AfterReplaceUri(l: Local, from: Node, to: Node): Local
  {
    l.(annotations := seq(|l.annotations|, i requires 0 <= i < |l.annotations| =>
         if l.annotations[i].node == from then l.annotations[i].(node := to) else l.annotations[i]))
  }

  // ---------------------------------------------------------------------
  // Phases A and B: one local resource

  /** The decision table of lines 78-85 (first matching row wins). */
  function Decide(prevETag: Option<string>, curETag: Option<string>, prevSum: Option<string>, curSum: string): ActionKind
  {
    if !Truthy(prevETag) || prevETag != curETag then UpdateOverwrite
    else if !Truthy(prevSum) || prevSum != Some(curSum) then Update
    else Skip
  }

  function Emit(s: Pass, k: ActionKind, item: Item): Pass
  {
    s.(actions := s.actions + [Action(k, item)])
  }

  /** One iteration of the loop at lines 36-100. */
  function StepResource(p: Path, s: Pass, svc: Service): Pass
  {
    if p !in s.remote.resources then
      match KindOf(s.local, p)
      case Internal =>
        // the action is yielded before the checksum is read and the file uploaded
        var s1 := Emit(s, AggregateInternal, RelPath(p));
        if p !in s.local.checksums then s1.(error := Some(Unreadable(p)))
        else
          s1.(remote := AfterAggregateInt(s.remote, p, svc),
              local := Recorded(s.local, p, svc.etags(s.remote.uploads), s.local.checksums[p]))
      case External =>
        Emit(s, AggregateExternal, RelPath(p)).(remote := AfterAggregateExt(s.remote, p))
      case Neither => s
    else
      match KindOf(s.local, p)
      case Internal =>
        if IsLocalAnnotationNode(s.local, p) then s
        else
          var h := HeadOf(s.remote, p);
          if h.status != 200 then s.(error := Some(HeadFailed(p, h.status)))
          else if p !in s.local.checksums then s.(error := Some(Unreadable(p)))
          else
            var sum := s.local.checksums[p];
            var k := Decide(Lookup(s.local.registry, p, ETag), h.etag,
                            Lookup(s.local.registry, p, Checksum), sum);
            if k == Skip then Emit(s, Skip, RelPath(p))
            else
              Emit(s, k, RelPath(p)).(remote := AfterUpdateInt(s.remote, p, svc),
                                      local := Recorded(s.local, p, svc.etags(s.remote.uploads), sum))
      case External => Emit(s, Skip, LocalUri(p))
      case Neither => s
  }

  /** The loop at lines 36-100 over a snapshot ps; an exception ends it. */
  function PushResources(ps: seq<Path>, s: Pass, svc: Service): Pass
    decreases |ps|
  {
    if ps == [] || s.error.Some? then s
    else PushResources(ps[1..], StepResource(ps[0], s, svc), svc)
  }

  // ---------------------------------------------------------------------
  // Phase C: one remote resource

  /** One iteration of the loop at lines 102-108. */
  function StepRemoteResource(p: Path, s: Pass): Pass
  {
    if p !in s.local.resources then
      Emit(s, Delete, RemoteUri(p)).(remote := AfterDeaggregate(s.remote, p))
    else s
  }

  function DeaggregateRemoteOnly(ps: seq<Path>, s: Pass): Pass
    decreases |ps|
  {
    if ps == [] then s else DeaggregateRemoteOnly(ps[1..], StepRemoteResource(ps[0], s))
  }

  // ---------------------------------------------------------------------
  // Phase D: annotations

  /** One iteration of the loop at lines 110-123. */
  function StepLocalAnnotation(a: LocalAnnotation, s: Pass, svc: Service): Pass
  {
    if a.node.Blank? || !IsRemoteAnnotationNode(s.remote, a.node.path) then
      var n := svc.nodes(s.remote.minted);
      Emit(s, AggregateAnnotation, RelPath(n)).(
        remote := AfterAddAnnotation(s.remote, a.body, a.target, svc),
        local := AfterReplaceUri(s.local, a.node, Named(n)))
    else
      Emit(s, UpdateAnnotation, LocalUri(a.node.path)).(
        remote := AfterUpdateAnnotation(s.remote, a.node.path, a.body, a.target))
  }

  function PushAnnotations(anns: seq<LocalAnnotation>, s: Pass, svc: Service): Pass
    decreases |anns|
  {
    if anns == [] then s else PushAnnotations(anns[1..], StepLocalAnnotation(anns[0], s, svc), svc)
  }

  /** One iteration of the loop at lines 125-131. */
  function StepRemoteAnnotation(a: RemoteAnnotation, s: Pass): Pass
  {
    if !IsLocalAnnotationNode(s.local, a.node) then
      Emit(s, DeleteAnnotation, RemoteUri(a.node)).(remote := AfterDeleteAnnotation(s.remote, a.node))
    else s
  }

  function DeleteRemoteOnlyAnnotations(anns: seq<RemoteAnnotation>, s: Pass): Pass
    decreases |anns|
  {
    if anns == [] then s else DeleteRemoteOnlyAnnotations(anns[1..], StepRemoteAnnotation(anns[0], s))
  }

  // ---------------------------------------------------------------------
  // The whole pass

  /**
   * `pushResearchObject` (lines 31-134): the four loops over snapshots of
   * the store lists taken when each loop starts, then saveRegistries.
   * There is no `force` parameter: the source never reads it.
   */
  function Push(l: Local, r: Remote, svc: Service): Pass
  {
    var s1 := PushResources(l.resources, Pass(l, r, [], None), svc);
    if s1.error.Some? then s1
    else
      var s2 := DeaggregateRemoteOnly(s1.remote.resources, s1);
      var s3 := PushAnnotations(s2.local.annotations, s2, svc);
      var s4 := DeleteRemoteOnlyAnnotations(s3.remote.annotations, s3);
      s4.(local := s4.local.(saved := s4.local.registry))
  }
}
