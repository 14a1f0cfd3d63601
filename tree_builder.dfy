/**
  The second stage of the reader (codegen/xml_def_reader.go): `buildXmlDefTree`
  makes one pass over the flat entity list, rejects a repeated code, collects
  the entities whose parent is `NULL` into the root map, and links every body
  of a child's parent whose path equals the child's header path to the child.

  Go shares `*DefEntity` and `*DefBody` pointers between the flat list, the
  two maps and the links. Here the entities live in one array, the maps hold
  indices into it, and a link is the child's index; linking rewrites bodies
  of the parent's array cell in place.

  `BuildTree` is the pass as a function (`BuildStep` is one iteration);
  `BuildTreeSucceeds`, `BuildTreeFails` and `BuildTreeResult` state what it
  computes without reference to the loop.
 */
module TreeBuilder {

  import opened DefTypes

  /** The result: the root map (code to entity index) and every entity with
      its links installed. */
  datatype Forest = Forest(roots: map<string, nat>, entities: seq<Entity>)

  /** The loop state: `allCmtCodes`, `rootEntities` and the entities. */
  datatype BuildState = BuildState(allCodes: map<string, nat>, roots: map<string, nat>, cur: seq<Entity>)

  /** A body linked to the entity at index `child`. */
  function Linked(b: Body, child: nat): (r: Body)
    ensures r.isEmbeddedSet && r.embeddedSet == Some(child)
    ensures r.(isEmbeddedSet := b.isEmbeddedSet, embeddedSet := b.embeddedSet) == b
  {
    b.(isEmbeddedSet := true, embeddedSet := Some(child))
  }

  /** The inner loop: every body whose path is `path` is linked to `child`. */
  function LinkBodies(bodies: seq<Body>, path: string, child: nat): (r: seq<Body>)
    ensures |r| == |bodies|
    ensures forall j :: 0 <= j < |bodies| ==>
      r[j] == if bodies[j].path == path then Linked(bodies[j], child) else bodies[j]
  {
    seq(|bodies|, j requires 0 <= j < |bodies| =>
      if bodies[j].path == path then Linked(bodies[j], child) else bodies[j])
  }

  /** What the loop keeps about the shape of its state before iteration `i`. */
  predicate Shaped(es: seq<Entity>, i: nat, st: BuildState) {
    i <= |es| && |st.cur| == |es| && forall c :: c in st.allCodes ==> st.allCodes[c] < i
  }

  /** One iteration, on the entity at index `i`. */
  function BuildStep(es: seq<Entity>, i: nat, st: BuildState): (r: Result<BuildState>)
    requires i < |es| && Shaped(es, i, st)
    ensures r.Ok? ==> Shaped(es, i + 1, r.value)
  {
    var h := es[i].header;
    if h.cmtCode in st.allCodes then Err(DuplicatedCode(h.cmtCode))
    else
      var all := st.allCodes[h.cmtCode := i];
      if h.parent == RootParent then
        Ok(BuildState(all, st.roots[h.cmtCode := i], st.cur))
      else if h.parent !in all then
        Err(UnknownParent(h.cmtCode, h.parent))
      else
        var p := all[h.parent];
        var parent := st.cur[p];
        Ok(BuildState(all, st.roots, st.cur[p := parent.(bodies := LinkBodies(parent.bodies, h.path, i))]))
  }

  /** The loop from iteration `i` on. */
  function BuildFrom(es: seq<Entity>, i: nat, st: BuildState): Result<Forest>
    requires Shaped(es, i, st)
    decreases |es| - i
  {
    if i == |es| then Ok(Forest(st.roots, st.cur))
    else
      match BuildStep(es, i, st)
      case Err(e) => Err(e)
      case Ok(st') => BuildFrom(es, i + 1, st')
  }

  /** `buildXmlDefTree` as a function of the flat entity list. */
  function BuildTree(es: seq<Entity>): Result<Forest> {
    BuildFrom(es, 0, BuildState(map[], map[], es))
  }

  /** `buildXmlDefTree`. The entities are copied into an array whose cells the
      linking rewrites in place, as Go rewrites the shared bodies. */
  method BuildXmlDefTree(allEntities: seq<Entity>) returns (r: Result<Forest>)
    ensures r == BuildTree(allEntities)
  {
    var n := |allEntities|;
    var entities := new Entity[n](k requires 0 <= k < n => allEntities[k]);
    assert entities[..] == allEntities;
    var rootEntities: map<string, nat> := map[];
    var allCmtCodes: map<string, nat> := map[];
    for i := 0 to n
      invariant Shaped(allEntities, i, BuildState(allCmtCodes, rootEntities, entities[..]))
      invariant BuildFrom(allEntities, i, BuildState(allCmtCodes, rootEntities, entities[..])) == BuildTree(allEntities)
    {
      ghost var st := BuildState(allCmtCodes, rootEntities, entities[..]);
      var header := allEntities[i].header;
      if header.cmtCode in allCmtCodes {
        return Err(DuplicatedCode(header.cmtCode));
      }
      allCmtCodes := allCmtCodes[header.cmtCode := i];
      if header.parent == RootParent {
        rootEntities := rootEntities[header.cmtCode := i];
      } else {
        if header.parent !in allCmtCodes {
          return Err(UnknownParent(header.cmtCode, header.parent));
        }
        var p := allCmtCodes[header.parent];
        var parent := entities[p];
        ghost var before := entities[..];
        for j := 0 to |parent.bodies|
          invariant entities[p].header == parent.header
          invariant |entities[p].bodies| == |parent.bodies|
          invariant forall m :: 0 <= m < j ==> entities[p].bodies[m] == LinkBodies(parent.bodies, header.path, i)[m]
          invariant forall m :: j <= m < |parent.bodies| ==> entities[p].bodies[m] == parent.bodies[m]
          invariant forall k :: 0 <= k < n && k != p ==> entities[k] == before[k]
        {
          var body := entities[p].bodies[j];
          if body.path == header.path {
            entities[p] := entities[p].(bodies := entities[p].bodies[j := Linked(body, i)]);
          }
        }
        assert entities[p] == parent.(bodies := LinkBodies(parent.bodies, header.path, i));
        assert entities[..] == before[p := entities[p]];
      }
      assert BuildStep(allEntities, i, st) == Ok(BuildState(allCmtCodes, rootEntities, entities[..]));
    }
    r := Ok(Forest(rootEntities, entities[..]));
  }

  // ---------------------------------------------------------------------
  // What the pass computes

  /** Entity `c` is a child of entity `k`: its parent code is not `NULL`, it
      is `k`'s code, and `k` was seen no later than `c` itself. */
  predicate ChildOf(es: seq<Entity>, c: nat, k: nat)
    requires c < |es| && k < |es|
  {
    k <= c && es[c].header.parent != RootParent && es[c].header.parent == es[k].header.cmtCode
  }

  /** The last entity before index `n` that is a child of `k` with header
      path `path`: the link a body of `k` with that path ends up with. */
  function LastChild(es: seq<Entity>, k: nat, path: string, n: nat): (r: Option<nat>)
    requires k < |es| && n <= |es|
    ensures r.Some? ==> r.value < n && ChildOf(es, r.value, k) && es[r.value].header.path == path
    ensures r.Some? ==> forall c :: r.value < c < n ==> !(ChildOf(es, c, k) && es[c].header.path == path)
    ensures r.None? ==> forall c :: 0 <= c < n ==> !(ChildOf(es, c, k) && es[c].header.path == path)
    decreases n
  {
    if n == 0 then None
    else if ChildOf(es, n - 1, k) && es[n - 1].header.path == path then Some(n - 1)
    else LastChild(es, k, path, n - 1)
  }

  /** A body with the link of `target`, if there is one. */
  function LinkedTo(b: Body, target: Option<nat>): Body {
    match target
    case None => b
    case Some(c) => Linked(b, c)
  }

  function CodesBefore(es: seq<Entity>, n: nat): set<string>
    requires n <= |es|
  {
    set k | 0 <= k < n :: es[k].header.cmtCode
  }

  function RootCodesBefore(es: seq<Entity>, n: nat): set<string>
    requires n <= |es|
  {
    set k | 0 <= k < n && es[k].header.parent == RootParent :: es[k].header.cmtCode
  }

  predicate CodesDistinctBefore(es: seq<Entity>, n: nat)
    requires n <= |es|
  {
    forall a, b :: 0 <= a < b < n ==> es[a].header.cmtCode != es[b].header.cmtCode
  }

  /** Codes are pairwise distinct. */
  predicate CodesDistinct(es: seq<Entity>) {
    CodesDistinctBefore(es, |es|)
  }

  /** Every non-root entity names as parent the code of an entity at or
      before its own position. */
  predicate ParentsSeen(es: seq<Entity>) {
    forall c :: 0 <= c < |es| && es[c].header.parent != RootParent ==>
      es[c].header.parent in CodesBefore(es, c + 1)
  }

  /** The iteration on entity `i` fails: its code was seen, or its parent is
      neither `NULL` nor a code seen so far (itself included). */
  predicate BadAt(es: seq<Entity>, i: nat)
    requires i < |es|
  {
    es[i].header.cmtCode in CodesBefore(es, i)
    || (es[i].header.parent != RootParent && es[i].header.parent !in CodesBefore(es, i + 1))
  }

  /** The error of a failing iteration: the duplicate check comes first. */
  function ErrorAt(es: seq<Entity>, i: nat): Error
    requires i < |es|
  {
    var h := es[i].header;
    if h.cmtCode in CodesBefore(es, i) then DuplicatedCode(h.cmtCode)
    else UnknownParent(h.cmtCode, h.parent)
  }

  /** The root map holds exactly the codes of the `NULL`-parent entities
      among those processed, each mapped to its entity. */
  predicate RootsFit(es: seq<Entity>, n: nat, roots: map<string, nat>)
    requires n <= |es|
  {
    && roots.Keys == RootCodesBefore(es, n)
    && forall c :: c in roots ==>
         roots[c] < n && es[roots[c]].header.cmtCode == c && es[roots[c]].header.parent == RootParent
  }

  /** Headers and body counts are kept, and every body carries the link to
      the last child processed so far with its path. */
  predicate LinksFit(es: seq<Entity>, n: nat, cur: seq<Entity>)
    requires n <= |es|
  {
    && |cur| == |es|
    && (forall k :: 0 <= k < |es| ==> cur[k].header == es[k].header && |cur[k].bodies| == |es[k].bodies|)
    && forall k, j :: 0 <= k < |es| && 0 <= j < |es[k].bodies| ==>
         cur[k].bodies[j] == LinkedTo(es[k].bodies[j], LastChild(es, k, es[k].bodies[j].path, n))
  }

  /** The loop invariant, stated against the input. */
  predicate StateFits(es: seq<Entity>, i: nat, st: BuildState) {
    && Shaped(es, i, st)
    && CodesDistinctBefore(es, i)
    && st.allCodes.Keys == CodesBefore(es, i)
    && (forall c :: c in st.allCodes ==> es[st.allCodes[c]].header.cmtCode == c)
    && RootsFit(es, i, st.roots)
    && LinksFit(es, i, st.cur)
  }

  lemma StartFits(es: seq<Entity>)
    ensures StateFits(es, 0, BuildState(map[], map[], es))
  {
    var st := BuildState(map[], map[], es);
    assert CodesBefore(es, 0) == {};
    assert RootCodesBefore(es, 0) == {};
    forall k, j | 0 <= k < |es| && 0 <= j < |es[k].bodies|
      ensures st.cur[k].bodies[j] == LinkedTo(es[k].bodies[j], LastChild(es, k, es[k].bodies[j].path, 0))
    {
    }
  }

  lemma CodesBeforeNext(es: seq<Entity>, i: nat)
    requires i < |es|
    ensures CodesBefore(es, i + 1) == CodesBefore(es, i) + {es[i].header.cmtCode}
    ensures RootCodesBefore(es, i + 1) ==
      RootCodesBefore(es, i) + (if es[i].header.parent == RootParent then {es[i].header.cmtCode} else {})
  {
  }

  /** A good iteration keeps the invariant. */
  lemma StepFits(es: seq<Entity>, i: nat, st: BuildState)
    requires i < |es| && StateFits(es, i, st) && !BadAt(es, i)
    ensures BuildStep(es, i, st).Ok?
    ensures StateFits(es, i + 1, BuildStep(es, i, st).value)
  {
    CodesBeforeNext(es, i);
    var st' := BuildStep(es, i, st).value;
    StepKeepsCodesDistinct(es, i);
    StepKeepsMaps(es, i, st);
    StepKeepsLinks(es, i, st);
  }

  /** The code and root maps after a good iteration. */
  lemma StepKeepsMaps(es: seq<Entity>, i: nat, st: BuildState)
    requires i < |es| && StateFits(es, i, st) && !BadAt(es, i)
    ensures BuildStep(es, i, st).Ok?
    ensures var st' := BuildStep(es, i, st).value;
      && st'.allCodes.Keys == CodesBefore(es, i + 1)
      && (forall c :: c in st'.allCodes ==> es[st'.allCodes[c]].header.cmtCode == c)
      && RootsFit(es, i + 1, st'.roots)
  {
    var h := es[i].header;
    CodesBeforeNext(es, i);
    var st' := BuildStep(es, i, st).value;
    assert st'.allCodes == st.allCodes[h.cmtCode := i];
    StepKeepsRoots(es, i, st.roots, st'.roots);
  }

  lemma StepKeepsRoots(es: seq<Entity>, i: nat, roots: map<string, nat>, roots': map<string, nat>)
    requires i < |es| && RootsFit(es, i, roots)
    requires roots' == if es[i].header.parent == RootParent then roots[es[i].header.cmtCode := i] else roots
    ensures RootsFit(es, i + 1, roots')
  {
    CodesBeforeNext(es, i);
  }

  /** The links after a good iteration. */
  lemma StepKeepsLinks(es: seq<Entity>, i: nat, st: BuildState)
    requires i < |es| && StateFits(es, i, st) && !BadAt(es, i)
    ensures BuildStep(es, i, st).Ok?
    ensures LinksFit(es, i + 1, BuildStep(es, i, st).value.cur)
  {
    var h := es[i].header;
    CodesBeforeNext(es, i);
    StepKeepsCodesDistinct(es, i);
    var st' := BuildStep(es, i, st).value;
    if h.parent == RootParent {
      assert st'.cur == st.cur;
      forall k, j | 0 <= k < |es| && 0 <= j < |es[k].bodies|
        ensures st'.cur[k].bodies[j] == LinkedTo(es[k].bodies[j], LastChild(es, k, es[k].bodies[j].path, i + 1))
      {
        LastChildSkips(es, k, es[k].bodies[j].path, i);
      }
    } else {
      var p := st'.allCodes[h.parent];
      assert p <= i && es[p].header.cmtCode == h.parent;
      assert st'.cur == st.cur[p := st.cur[p].(bodies := LinkBodies(st.cur[p].bodies, h.path, i))];
      StepLinksFit(es, i, p, st.cur);
    }
  }

  lemma StepKeepsCodesDistinct(es: seq<Entity>, i: nat)
    requires i < |es| && CodesDistinctBefore(es, i)
    requires es[i].header.cmtCode !in CodesBefore(es, i)
    ensures CodesDistinctBefore(es, i + 1)
  {
    forall a, b | 0 <= a < b < i + 1
      ensures es[a].header.cmtCode != es[b].header.cmtCode
    {
      if b == i {
        assert es[a].header.cmtCode in CodesBefore(es, i);
      }
    }
  }

  /** An entity that is not a matching child leaves `LastChild` as it was. */
  lemma LastChildSkips(es: seq<Entity>, k: nat, path: string, i: nat)
    requires k < |es| && i < |es|
    requires !(ChildOf(es, i, k) && es[i].header.path == path)
    ensures LastChild(es, k, path, i + 1) == LastChild(es, k, path, i)
  {
  }

  /** Linking the bodies of parent `p` to child `i` installs exactly the
      links `LastChild` describes once `i` is counted. */
  lemma StepLinksFit(es: seq<Entity>, i: nat, p: nat, cur: seq<Entity>)
    requires p <= i < |es| && CodesDistinctBefore(es, i + 1)
    requires es[i].header.parent != RootParent && es[p].header.cmtCode == es[i].header.parent
    requires LinksFit(es, i, cur)
    ensures LinksFit(es, i + 1, cur[p := cur[p].(bodies := LinkBodies(cur[p].bodies, es[i].header.path, i))])
  {
    var h := es[i].header;
    var cur' := cur[p := cur[p].(bodies := LinkBodies(cur[p].bodies, h.path, i))];
    forall k, j | 0 <= k < |es| && 0 <= j < |es[k].bodies|
      ensures cur'[k].bodies[j] == LinkedTo(es[k].bodies[j], LastChild(es, k, es[k].bodies[j].path, i + 1))
    {
      var path := es[k].bodies[j].path;
      if k != p {
        assert !ChildOf(es, i, k) by {
          if k <= i {
            assert es[k].header.cmtCode != es[p].header.cmtCode;
          }
        }
        LastChildSkips(es, k, path, i);
      } else {
        assert ChildOf(es, i, p);
        assert cur[p].bodies[j].path == path;
      }
    }
  }

  /** A failing iteration reports `ErrorAt`. */
  lemma StepFails(es: seq<Entity>, i: nat, st: BuildState)
    requires i < |es| && StateFits(es, i, st) && BadAt(es, i)
    ensures BuildStep(es, i, st) == Err(ErrorAt(es, i))
  {
    CodesBeforeNext(es, i);
  }

  /** From a fitting state, the pass succeeds iff no later iteration is bad,
      and its result fits the whole input. */
  lemma {:induction false} BuildFromFits(es: seq<Entity>, i: nat, st: BuildState)
    requires StateFits(es, i, st)
    requires forall k :: i <= k < |es| ==> !BadAt(es, k)
    ensures BuildFrom(es, i, st).Ok?
    ensures var f := BuildFrom(es, i, st).value;
      CodesDistinct(es) && RootsFit(es, |es|, f.roots) && LinksFit(es, |es|, f.entities)
    decreases |es| - i
  {
    if i < |es| {
      StepFits(es, i, st);
      var st' := BuildStep(es, i, st).value;
      assert StateFits(es, i + 1, st');
      assert BuildFrom(es, i, st) == BuildFrom(es, i + 1, st');
      BuildFromFits(es, i + 1, st');
    }
  }

  lemma {:induction false} BuildFromFails(es: seq<Entity>, i: nat, st: BuildState, bad: nat)
    requires StateFits(es, i, st)
    requires i <= bad < |es| && BadAt(es, bad)
    requires forall k :: i <= k < bad ==> !BadAt(es, k)
    ensures BuildFrom(es, i, st) == Err(ErrorAt(es, bad))
    decreases bad - i
  {
    if i == bad {
      StepFails(es, i, st);
    } else {
      StepFits(es, i, st);
      BuildFromFails(es, i + 1, BuildStep(es, i, st).value, bad);
    }
  }

  lemma NoBadIffDistinctAndSeen(es: seq<Entity>)
    ensures (forall k :: 0 <= k < |es| ==> !BadAt(es, k)) <==> CodesDistinct(es) && ParentsSeen(es)
  {
    if forall k :: 0 <= k < |es| ==> !BadAt(es, k) {
      forall a, b | 0 <= a < b < |es|
        ensures es[a].header.cmtCode != es[b].header.cmtCode
      {
        assert !BadAt(es, b);
        assert es[a].header.cmtCode in CodesBefore(es, b);
      }
      assert CodesDistinct(es);
      forall c | 0 <= c < |es| && es[c].header.parent != RootParent
        ensures es[c].header.parent in CodesBefore(es, c + 1)
      {
        assert !BadAt(es, c);
      }
    }
    if CodesDistinct(es) && ParentsSeen(es) {
      forall k | 0 <= k < |es|
        ensures !BadAt(es, k)
      {
        NotSeenBefore(es, k);
      }
    }
  }

  /** With distinct codes, no entity's code was seen before it. */
  lemma NotSeenBefore(es: seq<Entity>, k: nat)
    requires k < |es| && CodesDistinct(es)
    ensures es[k].header.cmtCode !in CodesBefore(es, k)
  {
    forall a | 0 <= a < k
      ensures es[a].header.cmtCode != es[k].header.cmtCode
    {
    }
  }

  /** The pass succeeds iff codes are pairwise distinct and every non-root
      entity's parent code belongs to an entity at or before it; the pass
      itself never looks ahead for a parent. */
  lemma BuildTreeSucceeds(es: seq<Entity>)
    ensures BuildTree(es).Ok? <==> CodesDistinct(es) && ParentsSeen(es)
  {
    StartFits(es);
    NoBadIffDistinctAndSeen(es);
    if CodesDistinct(es) && ParentsSeen(es) {
      BuildFromFits(es, 0, BuildState(map[], map[], es));
    } else {
      var bad := FirstBadExists(es, 0);
      BuildFromFails(es, 0, BuildState(map[], map[], es), bad);
    }
  }

  /** The first bad iteration from `i` on, when there is one. */
  lemma {:induction false} FirstBadExists(es: seq<Entity>, i: nat) returns (bad: nat)
    requires exists k :: i <= k < |es| && BadAt(es, k)
    ensures i <= bad < |es| && BadAt(es, bad)
    ensures forall k :: i <= k < bad ==> !BadAt(es, k)
    decreases |es| - i
  {
    if BadAt(es, i) {
      bad := i;
    } else {
      bad := FirstBadExists(es, i + 1);
    }
  }

  /** The pass fails at the first bad entity, with its error: a repeated code
      is reported before a missing parent. */
  lemma BuildTreeFails(es: seq<Entity>, bad: nat)
    requires bad < |es| && BadAt(es, bad)
    requires forall k :: 0 <= k < bad ==> !BadAt(es, k)
    ensures BuildTree(es) == Err(ErrorAt(es, bad))
  {
    StartFits(es);
    BuildFromFails(es, 0, BuildState(map[], map[], es), bad);
  }

  /** On success the root map's keys are exactly the codes of the entities
      whose parent is `NULL`, each mapped to its own entity; every entity
      keeps its header and number of bodies; a body is relinked to the last
      child of its entity whose header path equals the body's path, and a
      body that no child matches is unchanged. */
  lemma BuildTreeResult(es: seq<Entity>)
    requires BuildTree(es).Ok?
    ensures RootsFit(es, |es|, BuildTree(es).value.roots)
    ensures LinksFit(es, |es|, BuildTree(es).value.entities)
  {
    BuildTreeSucceeds(es);
    NoBadIffDistinctAndSeen(es);
    StartFits(es);
    BuildFromFits(es, 0, BuildState(map[], map[], es));
  }

  /** With distinct codes, an entity's code is a key of the root map iff its
      parent is `NULL`, and the key maps to that entity. */
  lemma RootKeys(es: seq<Entity>, roots: map<string, nat>, k: nat)
    requires CodesDistinct(es) && RootsFit(es, |es|, roots) && k < |es|
    ensures es[k].header.cmtCode in roots <==> es[k].header.parent == RootParent
    ensures es[k].header.cmtCode in roots ==> roots[es[k].header.cmtCode] == k
  {
    var c := es[k].header.cmtCode;
    if es[k].header.parent == RootParent {
      assert c in RootCodesBefore(es, |es|);
    }
    if c in roots {
      var r := roots[c];
      assert es[r].header.cmtCode == c;
    }
  }

  /** An entity whose parent code is its own code (and not `NULL`) is a
      child of itself: it is not a root, and a body of it whose path is its
      header path is linked to the last child of it with that path, which is
      the entity itself exactly when no later entity is such a child. */
  lemma SelfParentLinksItself(es: seq<Entity>, k: nat, j: nat)
    requires BuildTree(es).Ok?
    requires k < |es| && j < |es[k].bodies|
    requires es[k].header.parent == es[k].header.cmtCode && es[k].header.parent != RootParent
    requires es[k].bodies[j].path == es[k].header.path
    ensures var f := BuildTree(es).value;
      && es[k].header.cmtCode !in f.roots
      && |f.entities| == |es| && j < |f.entities[k].bodies|
      && f.entities[k].bodies[j].embeddedSet.Some?
      && k <= f.entities[k].bodies[j].embeddedSet.value
      && (f.entities[k].bodies[j] == Linked(es[k].bodies[j], k) <==>
            forall d :: k < d < |es| ==> !(ChildOf(es, d, k) && es[d].header.path == es[k].header.path))
  {
    var f := BuildTree(es).value;
    BuildTreeSucceeds(es);
    BuildTreeResult(es);
    RootKeys(es, f.roots, k);
    var path := es[k].header.path;
    assert ChildOf(es, k, k) && es[k].header.path == path;
    var last := LastChild(es, k, path, |es|);
    assert last.Some?;
    assert f.entities[k].bodies[j] == Linked(es[k].bodies[j], last.value);
  }

  /** A parent that only appears later is not found: the pass fails on the
      child. */
  lemma ForwardParentFails()
    ensures BuildTree([Entity(Header("B", "Q", "A"), []), Entity(Header("A", "P", RootParent), [])])
      == Err(UnknownParent("B", "A"))
  {
    var es := [Entity(Header("B", "Q", "A"), []), Entity(Header("A", "P", RootParent), [])];
    assert BuildStep(es, 0, BuildState(map[], map[], es)) == Err(UnknownParent("B", "A"));
  }

  /** A message whose second field's path is the header path of a group
      declared as its child: that field is linked to the group, the first
      field is not, and only the message is a root. */
  lemma MessageWithGroup()
    ensures var f1 := Body("F1", "Field1", "/root/f1", true, true, "int", false, None);
      var f2 := Body("F2", "Field2", "/root/group", false, false, "group", false, None);
      var g1 := Body("G1", "Sub1", "/root/group/g1", true, false, "int", false, None);
      var msg := Header("MSG1", "/root", RootParent);
      var grp := Header("GRP1", "/root/group", "MSG1");
      BuildTree([Entity(msg, [f1, f2]), Entity(grp, [g1])])
        == Ok(Forest(map["MSG1" := 0], [Entity(msg, [f1, Linked(f2, 1)]), Entity(grp, [g1])]))
  {
    var f1 := Body("F1", "Field1", "/root/f1", true, true, "int", false, None);
    var f2 := Body("F2", "Field2", "/root/group", false, false, "group", false, None);
    var g1 := Body("G1", "Sub1", "/root/group/g1", true, false, "int", false, None);
    var msg := Header("MSG1", "/root", RootParent);
    var grp := Header("GRP1", "/root/group", "MSG1");
    var es := [Entity(msg, [f1, f2]), Entity(grp, [g1])];
    var st1 := BuildState(map["MSG1" := 0], map["MSG1" := 0], es);
    assert BuildStep(es, 0, BuildState(map[], map[], es)) == Ok(st1);
    assert "MSG1" != RootParent && "GRP1" != "MSG1";
    assert LinkBodies([f1, f2], "/root/group", 1) == [f1, Linked(f2, 1)];
    var cur := [Entity(msg, [f1, Linked(f2, 1)]), Entity(grp, [g1])];
    assert es[0 := Entity(msg, [f1, Linked(f2, 1)])] == cur;
    assert map["MSG1" := 0]["GRP1" := 1]["MSG1"] == 0;
    var st2 := BuildState(map["MSG1" := 0]["GRP1" := 1], map["MSG1" := 0], cur);
    assert BuildStep(es, 1, st1) == Ok(st2);
    assert BuildFrom(es, 2, st2) == Ok(Forest(map["MSG1" := 0], cur));
    assert BuildFrom(es, 1, st1) == Ok(Forest(map["MSG1" := 0], cur));
  }
}
