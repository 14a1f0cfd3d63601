/**
  The first stage of the reader (codegen/xml_def_reader.go): `readPlainXmlDef`
  turns the lines into the flat, ordered list of entities and `validEntity`
  checks each entity for a repeated tag.

  `Scan` is the loop of `readPlainXmlDef` as a left fold over the lines;
  `ReadPlain` is the whole function. The grouping they perform is stated
  against `Flatten`: writing the entities back as a stream of header and body
  items gives exactly the items of the kept lines, in order.
 */
module PlainReader {

  import opened DefTypes
  import opened Text
  import opened LineParser

  // ---------------------------------------------------------------------
  // The loop of readPlainXmlDef

  /** `entity.Bodies = append(entity.Bodies, body)` on the current entity,
      which is the last one of the list. */
  function AddBody(es: seq<Entity>, b: Body): (r: seq<Entity>)
    requires es != []
    ensures |r| == |es| && r[..|es| - 1] == es[..|es| - 1]
    ensures r[|es| - 1] == Entity(es[|es| - 1].header, es[|es| - 1].bodies + [b])
  {
    es[|es| - 1 := es[|es| - 1].(bodies := es[|es| - 1].bodies + [b])]
  }

  /** One iteration of the loop: skip, open an entity, or add a body to the
      current one. A body line is parsed before the current entity is used, so
      a malformed body before any header is reported as malformed. */
  function Step(es: seq<Entity>, line: string): Result<seq<Entity>> {
    if IsBlank(line) || IsComment(line) then Ok(es)
    else if IsHeader(line) then
      match NewDefHeader(line)
      case Err(e) => Err(e)
      case Ok(h) => Ok(es + [NewDefEntity(h)])
    else
      match NewDefBody(line)
      case Err(e) => Err(e)
      case Ok(b) => if es == [] then Err(BodyBeforeHeader(line)) else Ok(AddBody(es, b))
  }

  /** The loop over all lines, from the entity list `es` on. */
  function Scan(es: seq<Entity>, lines: seq<string>): Result<seq<Entity>>
    decreases |lines|
  {
    if lines == [] then Ok(es)
    else
      match Step(es, lines[0])
      case Err(e) => Err(e)
      case Ok(es') => Scan(es', lines[1..])
  }

  // ---------------------------------------------------------------------
  // validEntity

  function TagsOf(bodies: seq<Body>): set<string> {
    set i | 0 <= i < |bodies| :: bodies[i].tag
  }

  /** No two bodies share a tag. */
  predicate DistinctTags(bodies: seq<Body>) {
    forall i, j :: 0 <= i < j < |bodies| ==> bodies[i].tag != bodies[j].tag
  }

  /** The first body, from `j` on, whose tag an earlier body already has:
      where `validEntity`'s loop stops. */
  function FirstRepeatFrom(bodies: seq<Body>, j: nat): (r: Option<nat>)
    requires j <= |bodies|
    requires DistinctTags(bodies[..j])
    ensures r.None? ==> DistinctTags(bodies)
    ensures r.Some? ==> j <= r.value < |bodies| && DistinctTags(bodies[..r.value])
                        && bodies[r.value].tag in TagsOf(bodies[..r.value])
    decreases |bodies| - j
  {
    if j == |bodies| then
      assert bodies[..j] == bodies;
      None
    else if bodies[j].tag in TagsOf(bodies[..j]) then Some(j)
    else
      assert DistinctTags(bodies[..j + 1]) by {
        forall i | 0 <= i < j
          ensures bodies[i].tag != bodies[j].tag
        {
          assert bodies[..j][i] == bodies[i];
        }
      }
      FirstRepeatFrom(bodies, j + 1)
  }

  /** The index of the first repeated tag, if any. */
  function FirstRepeat(bodies: seq<Body>): (r: Option<nat>)
    ensures r.None? <==> DistinctTags(bodies)
    ensures r.Some? ==> r.value < |bodies| && DistinctTags(bodies[..r.value])
                        && bodies[r.value].tag in TagsOf(bodies[..r.value])
  {
    FirstRepeatFrom(bodies, 0)
  }

  /** What `validEntity` reports for one entity. */
  function TagError(e: Entity): Option<Error> {
    match FirstRepeat(e.bodies)
    case None => None
    case Some(j) => Some(DuplicatedTag(e.bodies[j].tag, e.header.cmtCode))
  }

  /** `validEntity`: fills the `allTags` map body by body and reports the
      first body whose tag is already in it, naming the entity's code. */
  method ValidEntity(e: Entity) returns (err: Option<Error>)
    ensures err == TagError(e)
    ensures err.None? <==> DistinctTags(e.bodies)
    ensures err.Some? ==> exists i, j :: 0 <= i < j < |e.bodies| && e.bodies[i].tag == e.bodies[j].tag
                                         && err.value == DuplicatedTag(e.bodies[j].tag, e.header.cmtCode)
  {
    var allTags: map<string, int> := map[];
    var k := 0;
    while k < |e.bodies|
      invariant 0 <= k <= |e.bodies|
      invariant allTags.Keys == TagsOf(e.bodies[..k])
      invariant forall t :: t in allTags ==> allTags[t] == 1
      invariant DistinctTags(e.bodies[..k])
      invariant FirstRepeatFrom(e.bodies, k) == FirstRepeat(e.bodies)
    {
      var body := e.bodies[k];
      if body.tag in allTags && allTags[body.tag] == 1 {
        err := Some(DuplicatedTag(body.tag, e.header.cmtCode));
        TagErrorMeaning(e);
        return;
      }
      allTags := allTags[body.tag := 1];
      DistinctSnoc(e.bodies, k);
      k := k + 1;
    }
    err := None;
    TagErrorMeaning(e);
  }

  /** One more body with a fresh tag keeps the tags distinct. */
  lemma DistinctSnoc(bodies: seq<Body>, k: nat)
    requires k < |bodies| && DistinctTags(bodies[..k]) && bodies[k].tag !in TagsOf(bodies[..k])
    ensures DistinctTags(bodies[..k + 1])
    ensures TagsOf(bodies[..k + 1]) == TagsOf(bodies[..k]) + {bodies[k].tag}
  {
    var p, q := bodies[..k], bodies[..k + 1];
    assert forall i :: 0 <= i < k ==> q[i] == p[i];
    assert forall i :: 0 <= i < k ==> p[i].tag in TagsOf(p);
  }

  /** `TagError` reports nothing iff the tags are distinct, and otherwise
      names a tag that two bodies share. */
  lemma TagErrorMeaning(e: Entity)
    ensures TagError(e).None? <==> DistinctTags(e.bodies)
    ensures TagError(e).Some? ==> exists i, j :: 0 <= i < j < |e.bodies| && e.bodies[i].tag == e.bodies[j].tag
                                   && TagError(e).value == DuplicatedTag(e.bodies[j].tag, e.header.cmtCode)
  {
    match FirstRepeat(e.bodies)
    case None =>
    case Some(j) =>
      var i :| 0 <= i < j && e.bodies[..j][i].tag == e.bodies[j].tag;
      assert e.bodies[i].tag == e.bodies[j].tag;
  }

  /** `validEntity` over the entities in order: the first error, if any. */
  function ValidateAll(es: seq<Entity>): (r: Option<Error>)
    ensures r.None? <==> forall k :: 0 <= k < |es| ==> DistinctTags(es[k].bodies)
    decreases |es|
  {
    if es == [] then None
    else
      match TagError(es[0])
      case Some(e) => Some(e)
      case None =>
        assert forall k :: 1 <= k < |es| ==> es[k] == es[1..][k - 1];
        ValidateAll(es[1..])
  }

  /** The error `ValidateAll` reports is that of the first entity with a
      repeated tag. */
  lemma {:induction false} ValidateAllReportsFirst(es: seq<Entity>, k: nat)
    requires k < |es| && TagError(es[k]).Some?
    requires forall i :: 0 <= i < k ==> DistinctTags(es[i].bodies)
    ensures ValidateAll(es) == TagError(es[k])
    decreases k
  {
    if k > 0 {
      assert TagError(es[0]).None?;
      assert forall i :: 0 <= i < k - 1 ==> es[1..][i] == es[i + 1];
      ValidateAllReportsFirst(es[1..], k - 1);
    }
  }

  // ---------------------------------------------------------------------
  // readPlainXmlDef

  /** `readPlainXmlDef` on the lines the scanner produced. */
  function ReadPlain(raw: seq<string>): Result<seq<Entity>> {
    var lines := Preprocess(raw);
    if |lines| == 0 then Err(EmptyFile)
    else
      match Scan([], lines)
      case Err(e) => Err(e)
      case Ok(es) =>
        match ValidateAll(es)
        case Some(e) => Err(e)
        case None => Ok(es)
  }

  /** `readPlainXmlDef`: the lines are read and must not be empty, the
      loop groups them into entities, then every entity is validated. */
  method ReadPlainXmlDef(raw: seq<string>) returns (r: Result<seq<Entity>>)
    ensures r == ReadPlain(raw)
  {
    var textLines := ReadFileToStrings(raw);
    if |textLines| == 0 {
      return Err(EmptyFile);
    }
    var allEntities := ScanLines(textLines);
    if allEntities.Err? {
      return Err(allEntities.error);
    }
    var err := ValidEntities(allEntities.value);
    if err.Some? {
      return Err(err.value);
    }
    r := Ok(allEntities.value);
  }

  /** The loop of `readPlainXmlDef`: it keeps the current entity as the last
      one of `allEntities`, opens an entity on each header line and appends
      each body to the current entity. */
  method ScanLines(textLines: seq<string>) returns (r: Result<seq<Entity>>)
    ensures r == Scan([], textLines)
  {
    var allEntities: seq<Entity> := [];
    var i := 0;
    while i < |textLines|
      invariant 0 <= i <= |textLines|
      invariant Scan(allEntities, textLines[i..]) == Scan([], textLines)
    {
      var line := textLines[i];
      ghost var before := allEntities;
      if IsBlank(line) || IsComment(line) {
        StepSkips(before, line);
        ScanStepOk(before, textLines, i, allEntities);
        i := i + 1;
        continue;
      }
      if IsHeader(line) {
        StepOnHeader(before, line);
        var header := NewDefHeader(line);
        if header.Err? {
          ScanStepErr(before, textLines, i);
          return Err(header.error);
        }
        allEntities := allEntities + [NewDefEntity(header.value)];
      }
      if IsBody(line) {
        StepOnBody(before, line);
        var body := NewDefBody(line);
        if body.Err? {
          ScanStepErr(before, textLines, i);
          return Err(body.error);
        }
        if allEntities == [] {
          ScanStepErr(before, textLines, i);
          return Err(BodyBeforeHeader(line));
        }
        var entity := allEntities[|allEntities| - 1];
        allEntities := allEntities[|allEntities| - 1 := entity.(bodies := entity.bodies + [body.value])];
        assert allEntities == AddBody(before, body.value);
      }
      ScanStepOk(before, textLines, i, allEntities);
      i := i + 1;
    }
    assert textLines[|textLines|..] == [];
    r := Ok(allEntities);
  }

  /** The validation loop of `readPlainXmlDef`: `validEntity` on each entity
      in order, stopping at the first error. */
  method ValidEntities(es: seq<Entity>) returns (err: Option<Error>)
    ensures err == ValidateAll(es)
  {
    var k := 0;
    while k < |es|
      invariant 0 <= k <= |es|
      invariant forall j :: 0 <= j < k ==> DistinctTags(es[j].bodies)
    {
      err := ValidEntity(es[k]);
      if err.Some? {
        ValidateAllReportsFirst(es, k);
        return;
      }
      k := k + 1;
    }
    err := None;
  }

  /** A blank or comment line leaves the entities alone. */
  lemma StepSkips(es: seq<Entity>, line: string)
    requires IsBlank(line) || IsComment(line)
    ensures Step(es, line) == Ok(es)
  {
  }

  /** A header line opens an entity, or fails with the header's error. */
  lemma StepOnHeader(es: seq<Entity>, line: string)
    requires !IsBlank(line) && !IsComment(line) && IsHeader(line)
    ensures Step(es, line) == if NewDefHeader(line).Err? then Err(NewDefHeader(line).error)
                              else Ok(es + [NewDefEntity(NewDefHeader(line).value)])
  {
  }

  /** A body line is parsed first, then added to the current entity. */
  lemma StepOnBody(es: seq<Entity>, line: string)
    requires !IsBlank(line) && !IsComment(line) && !IsHeader(line)
    ensures Step(es, line) == if NewDefBody(line).Err? then Err(NewDefBody(line).error)
                              else if es == [] then Err(BodyBeforeHeader(line))
                              else Ok(AddBody(es, NewDefBody(line).value))
  {
  }

  /** A step that succeeds moves the loop on to the next line. */
  lemma ScanStepOk(es: seq<Entity>, lines: seq<string>, i: nat, es': seq<Entity>)
    requires i < |lines| && Step(es, lines[i]) == Ok(es')
    ensures Scan(es, lines[i..]) == Scan(es', lines[i + 1..])
  {
    assert lines[i..][1..] == lines[i + 1..];
  }

  /** A step that fails ends the loop with its error. */
  lemma ScanStepErr(es: seq<Entity>, lines: seq<string>, i: nat)
    requires i < |lines| && Step(es, lines[i]).Err?
    ensures Scan(es, lines[i..]) == Step(es, lines[i])
  {
  }

  // ---------------------------------------------------------------------
  // Grouping, stated as a round trip through a stream of items

  /** A kept line, parsed on its own. */
  datatype Item = HeaderItem(header: Header) | BodyItem(body: Body)

  /** The items of the kept lines in order, or the first line's error. */
  function LineItems(lines: seq<string>): Result<seq<Item>>
    decreases |lines|
  {
    if lines == [] then Ok([])
    else
      var line := lines[0];
      if IsBlank(line) || IsComment(line) then LineItems(lines[1..])
      else if IsHeader(line) then
        match NewDefHeader(line)
        case Err(e) => Err(e)
        case Ok(h) =>
          match LineItems(lines[1..])
          case Err(e) => Err(e)
          case Ok(items) => Ok([HeaderItem(h)] + items)
      else
        match NewDefBody(line)
        case Err(e) => Err(e)
        case Ok(b) =>
          match LineItems(lines[1..])
          case Err(e) => Err(e)
          case Ok(items) => Ok([BodyItem(b)] + items)
  }

  /** An entity written back as its header item followed by its body items. */
  function EntityItems(e: Entity): (items: seq<Item>)
    ensures |items| == 1 + |e.bodies|
    ensures items[0] == HeaderItem(e.header)
    ensures forall j :: 0 <= j < |e.bodies| ==> items[j + 1] == BodyItem(e.bodies[j])
  {
    [HeaderItem(e.header)] + seq(|e.bodies|, j requires 0 <= j < |e.bodies| => BodyItem(e.bodies[j]))
  }

  /** The entities written back in order. */
  function Flatten(es: seq<Entity>): seq<Item>
    decreases |es|
  {
    if es == [] then [] else Flatten(es[..|es| - 1]) + EntityItems(es[|es| - 1])
  }

  predicate StartsWithHeader(items: seq<Item>) {
    items == [] || items[0].HeaderItem?
  }

  lemma FlattenStartsWithHeader(es: seq<Entity>)
    ensures StartsWithHeader(Flatten(es))
    ensures es != [] ==> Flatten(es) != []
    decreases |es|
  {
    if es != [] {
      FlattenStartsWithHeader(es[..|es| - 1]);
    }
  }

  lemma FlattenAddBody(es: seq<Entity>, b: Body)
    requires es != []
    ensures Flatten(AddBody(es, b)) == Flatten(es) + [BodyItem(b)]
  {
    var r := AddBody(es, b);
    assert r[..|r| - 1] == es[..|es| - 1];
    assert EntityItems(r[|r| - 1]) == EntityItems(es[|es| - 1]) + [BodyItem(b)];
  }

  lemma FlattenAddEntity(es: seq<Entity>, e: Entity)
    ensures Flatten(es + [e]) == Flatten(es) + EntityItems(e)
  {
    assert (es + [e])[..|es|] == es;
  }

  /** Each step of the loop writes back as the item of its line. */
  lemma {:induction false} ScanFlattens(es: seq<Entity>, lines: seq<string>)
    requires Scan(es, lines).Ok?
    ensures LineItems(lines).Ok?
    ensures Flatten(Scan(es, lines).value) == Flatten(es) + LineItems(lines).value
    decreases |lines|
  {
    if lines != [] {
      var es1 := Step(es, lines[0]).value;
      assert Scan(es, lines) == Scan(es1, lines[1..]);
      ScanFlattens(es1, lines[1..]);
      StepFlattens(es, lines);
    }
  }

  /** One step of the loop writes back as the item of its line, if any. */
  lemma {:induction false} StepFlattens(es: seq<Entity>, lines: seq<string>)
    requires lines != [] && Step(es, lines[0]).Ok? && LineItems(lines[1..]).Ok?
    ensures LineItems(lines).Ok?
    ensures Flatten(Step(es, lines[0]).value) + LineItems(lines[1..]).value
            == Flatten(es) + LineItems(lines).value
  {
    var line := lines[0];
    if IsBlank(line) || IsComment(line) {
    } else if IsHeader(line) {
      HeaderStepFlattens(es, lines);
    } else {
      BodyStepFlattens(es, lines);
    }
  }

  lemma {:induction false} HeaderStepFlattens(es: seq<Entity>, lines: seq<string>)
    requires lines != [] && !IsBlank(lines[0]) && !IsComment(lines[0]) && IsHeader(lines[0])
    requires NewDefHeader(lines[0]).Ok? && LineItems(lines[1..]).Ok?
    ensures LineItems(lines).Ok?
    ensures Flatten(es + [NewDefEntity(NewDefHeader(lines[0]).value)]) + LineItems(lines[1..]).value
            == Flatten(es) + LineItems(lines).value
  {
    var e, rest := NewDefEntity(NewDefHeader(lines[0]).value), LineItems(lines[1..]).value;
    FlattenAddEntity(es, e);
    EntityItemsOfNew(e.header);
    ConcatAssoc(Flatten(es), EntityItems(e), rest);
  }

  lemma EntityItemsOfNew(h: Header)
    ensures EntityItems(NewDefEntity(h)) == [HeaderItem(h)]
  {
  }

  lemma ConcatAssoc<T>(a: seq<T>, b: seq<T>, c: seq<T>)
    ensures a + b + c == a + (b + c)
  {
  }

  lemma {:induction false} BodyStepFlattens(es: seq<Entity>, lines: seq<string>)
    requires lines != [] && !IsBlank(lines[0]) && !IsComment(lines[0]) && !IsHeader(lines[0])
    requires es != [] && NewDefBody(lines[0]).Ok? && LineItems(lines[1..]).Ok?
    ensures LineItems(lines).Ok?
    ensures Flatten(AddBody(es, NewDefBody(lines[0]).value)) + LineItems(lines[1..]).value
            == Flatten(es) + LineItems(lines).value
  {
    var b, rest := NewDefBody(lines[0]).value, LineItems(lines[1..]).value;
    FlattenAddBody(es, b);
    ConcatAssoc(Flatten(es), [BodyItem(b)], rest);
  }

  /** The loop succeeds when every kept line parses and no body comes before
      the first header. */
  lemma {:induction false} ScanSucceeds(es: seq<Entity>, lines: seq<string>)
    requires LineItems(lines).Ok?
    requires es != [] || StartsWithHeader(LineItems(lines).value)
    ensures Scan(es, lines).Ok?
    decreases |lines|
  {
    if lines != [] {
      var line := lines[0];
      if IsBlank(line) || IsComment(line) {
        ScanSucceeds(es, lines[1..]);
      } else if IsHeader(line) {
        ScanSucceeds(es + [NewDefEntity(NewDefHeader(line).value)], lines[1..]);
      } else {
        ScanSucceeds(AddBody(es, NewDefBody(line).value), lines[1..]);
      }
    }
  }

  /** The loop fails when a kept line is malformed or the first kept line is
      a body. */
  lemma {:induction false} ScanFails(lines: seq<string>)
    requires Scan([], lines).Ok?
    ensures LineItems(lines).Ok? && StartsWithHeader(LineItems(lines).value)
  {
    ScanFlattens([], lines);
    FlattenStartsWithHeader(Scan([], lines).value);
  }

  /** Grouping: the loop succeeds iff every kept line parses and the first
      kept line is a header; then the entities, written back, are the items
      of the kept lines in input order, so each entity holds, in order, the
      bodies between its header and the next one. */
  lemma ScanGroupsLines(lines: seq<string>)
    ensures Scan([], lines).Ok? <==> LineItems(lines).Ok? && StartsWithHeader(LineItems(lines).value)
    ensures Scan([], lines).Ok? ==> Flatten(Scan([], lines).value) == LineItems(lines).value
  {
    if Scan([], lines).Ok? {
      ScanFails(lines);
      ScanFlattens([], lines);
    } else if LineItems(lines).Ok? && StartsWithHeader(LineItems(lines).value) {
      ScanSucceeds([], lines);
    }
  }

  /** The grouping is unique: the item stream determines the entities. */
  lemma {:induction false} FlattenInjective(es1: seq<Entity>, es2: seq<Entity>)
    requires Flatten(es1) == Flatten(es2)
    ensures es1 == es2
    decreases |es1|
  {
    FlattenStartsWithHeader(es1);
    FlattenStartsWithHeader(es2);
    if es1 != [] && es2 != [] {
      var p1, p2 := es1[..|es1| - 1], es2[..|es2| - 1];
      LastEntityOf(Flatten(p1), es1[|es1| - 1], Flatten(p2), es2[|es2| - 1]);
      FlattenInjective(p1, p2);
      assert es1 == p1 + [es1[|es1| - 1]];
      assert es2 == p2 + [es2[|es2| - 1]];
    }
  }

  /** The last entity of a stream, and what comes before it, are determined
      by the stream: its body items run back to its header item. */
  lemma LastEntityOf(a: seq<Item>, e1: Entity, b: seq<Item>, e2: Entity)
    requires a + EntityItems(e1) == b + EntityItems(e2)
    ensures a == b && e1 == e2
  {
    var f := a + EntityItems(e1);
    BodyRunOf(a, e1);
    BodyRunOf(b, e2);
    assert |a| == |b|;
    assert a == f[..|a|] == b;
    assert EntityItems(e1) == f[|a|..] == EntityItems(e2);
    EntityItemsInjective(e1, e2);
  }

  lemma EntityItemsInjective(e1: Entity, e2: Entity)
    requires EntityItems(e1) == EntityItems(e2)
    ensures e1 == e2
  {
    assert e1.header == e2.header;
    forall j | 0 <= j < |e1.bodies| ensures e1.bodies[j] == e2.bodies[j] {
      assert EntityItems(e1)[j + 1] == EntityItems(e2)[j + 1];
    }
  }

  /** The number of body items at the end of a stream. */
  function BodyRun(items: seq<Item>): nat
    decreases |items|
  {
    if items == [] || items[|items| - 1].HeaderItem? then 0
    else 1 + BodyRun(items[..|items| - 1])
  }

  lemma {:induction false} BodyRunOf(p: seq<Item>, e: Entity)
    ensures BodyRun(p + EntityItems(e)) == |e.bodies|
    decreases |e.bodies|
  {
    var f := p + EntityItems(e);
    if e.bodies != [] {
      var e' := e.(bodies := e.bodies[..|e.bodies| - 1]);
      assert f[..|f| - 1] == p + EntityItems(e');
      BodyRunOf(p, e');
    }
  }

  /** The loop stops at the first line that fails: no later line matters. */
  lemma {:induction false} ScanStopsAtFirstError(es: seq<Entity>, lines: seq<string>, j: nat)
    requires j < |lines|
    requires Scan(es, lines[..j]).Ok?
    requires Step(Scan(es, lines[..j]).value, lines[j]).Err?
    ensures Scan(es, lines) == Step(Scan(es, lines[..j]).value, lines[j])
    decreases j
  {
    if j > 0 {
      ScanPrefixUnfold(es, lines, j);
      ScanStopsAtFirstError(Step(es, lines[0]).value, lines[1..], j - 1);
    }
  }

  lemma ScanPrefixUnfold(es: seq<Entity>, lines: seq<string>, j: nat)
    requires 0 < j <= |lines|
    ensures Scan(es, lines[..j]) ==
      match Step(es, lines[0])
      case Err(e) => Err(e)
      case Ok(es') => Scan(es', lines[1..][..j - 1])
  {
    assert lines[..j][0] == lines[0];
    assert lines[..j][1..] == lines[1..][..j - 1];
  }

  /** Every body the loop builds is not linked to an embedded set yet. */
  predicate Unlinked(es: seq<Entity>) {
    forall k, j :: 0 <= k < |es| && 0 <= j < |es[k].bodies| ==>
      !es[k].bodies[j].isEmbeddedSet && es[k].bodies[j].embeddedSet == None
  }

  lemma {:induction false} ScanKeepsUnlinked(es: seq<Entity>, lines: seq<string>)
    requires Unlinked(es) && Scan(es, lines).Ok?
    ensures Unlinked(Scan(es, lines).value)
    decreases |lines|
  {
    if lines != [] {
      StepKeepsUnlinked(es, lines[0]);
      ScanKeepsUnlinked(Step(es, lines[0]).value, lines[1..]);
    }
  }

  lemma StepKeepsUnlinked(es: seq<Entity>, line: string)
    requires Unlinked(es) && Step(es, line).Ok?
    ensures Unlinked(Step(es, line).value)
  {
    if IsBlank(line) || IsComment(line) {
    } else if IsHeader(line) {
      var e := NewDefEntity(NewDefHeader(line).value);
      assert Step(es, line).value == es + [e];
      forall k, j | 0 <= k < |es| + 1 && 0 <= j < |(es + [e])[k].bodies|
        ensures !(es + [e])[k].bodies[j].isEmbeddedSet && (es + [e])[k].bodies[j].embeddedSet == None
      {
        assert k < |es|;
        assert (es + [e])[k] == es[k];
      }
    } else {
      var b := NewDefBody(line).value;
      assert Step(es, line).value == AddBody(es, b);
      AddBodyKeepsUnlinked(es, b);
    }
  }

  lemma AddBodyKeepsUnlinked(es: seq<Entity>, b: Body)
    requires es != [] && Unlinked(es)
    requires !b.isEmbeddedSet && b.embeddedSet == None
    ensures Unlinked(AddBody(es, b))
  {
    var r := AddBody(es, b);
    forall k, j | 0 <= k < |r| && 0 <= j < |r[k].bodies|
      ensures !r[k].bodies[j].isEmbeddedSet && r[k].bodies[j].embeddedSet == None
    {
      if k < |es| - 1 {
        assert r[k] == r[..|es| - 1][k] == es[k];
      } else {
        assert r[k].bodies == es[k].bodies + [b];
      }
    }
  }

  /** What a successful `readPlainXmlDef` guarantees: the file had lines, the
      entities are the grouping of its kept lines, every entity's tags are
      distinct, and no body is linked yet. */
  lemma ReadPlainOk(raw: seq<string>)
    requires ReadPlain(raw).Ok?
    ensures |raw| > 0
    ensures LineItems(Preprocess(raw)).Ok?
    ensures Flatten(ReadPlain(raw).value) == LineItems(Preprocess(raw)).value
    ensures forall k :: 0 <= k < |ReadPlain(raw).value| ==> DistinctTags(ReadPlain(raw).value[k].bodies)
    ensures Unlinked(ReadPlain(raw).value)
  {
    ScanGroupsLines(Preprocess(raw));
    ScanKeepsUnlinked([], Preprocess(raw));
  }

  /** The loop fails only on a line: a malformed header, a malformed body, or
      a body before any header. */
  lemma {:induction false} ScanErrorIsLineError(es: seq<Entity>, lines: seq<string>)
    requires Scan(es, lines).Err?
    ensures var e := Scan(es, lines).error;
      e.InvalidHeader? || e.InvalidBody? || e.BodyBeforeHeader?
    decreases |lines|
  {
    if Step(es, lines[0]).Ok? {
      ScanErrorIsLineError(Step(es, lines[0]).value, lines[1..]);
    }
  }

  /** Validation fails only on a repeated tag. */
  lemma {:induction false} ValidateAllIsTagError(es: seq<Entity>)
    requires ValidateAll(es).Some?
    ensures ValidateAll(es).value.DuplicatedTag?
    decreases |es|
  {
    if TagError(es[0]).None? {
      ValidateAllIsTagError(es[1..]);
    }
  }

  /** `readPlainXmlDef` succeeds iff the file has lines, the loop succeeds
      (every kept line parses and the first kept line is a header, by
      `ScanGroupsLines`) and no entity repeats a tag. */
  lemma ReadPlainSucceeds(raw: seq<string>)
    ensures ReadPlain(raw).Ok? <==>
      && |raw| > 0 && Scan([], Preprocess(raw)).Ok?
      && forall k :: 0 <= k < |Scan([], Preprocess(raw)).value| ==> DistinctTags(Scan([], Preprocess(raw)).value[k].bodies)
  {
  }

  /** Only an empty file reports `EmptyFile`, and a repeated tag is reported
      only once every kept line has parsed: a malformed line is reported
      before any tag validation. */
  lemma ReadPlainErrors(raw: seq<string>)
    ensures ReadPlain(raw) == Err(EmptyFile) <==> raw == []
    ensures ReadPlain(raw).Err? && ReadPlain(raw).error.DuplicatedTag? ==> Scan([], Preprocess(raw)).Ok?
  {
    var lines := Preprocess(raw);
    if |lines| > 0 {
      var sc := Scan([], lines);
      if sc.Err? {
        ScanErrorIsLineError([], lines);
      } else if ValidateAll(sc.value).Some? {
        ValidateAllIsTagError(sc.value);
      }
    }
  }

  /** A written header line opens a new entity with that header. */
  lemma StepOfFormatHeader(es: seq<Entity>, h: Header, ignored: string)
    requires IsToken(h.cmtCode) && IsToken(h.path) && IsToken(h.parent) && IsToken(ignored)
    ensures Step(es, FormatHeader(h, ignored)) == Ok(es + [Entity(h, [])])
  {
    var line := FormatHeader(h, ignored);
    FormatHeaderFields(h, ignored);
    assert line[..|CodeKey|] == CodeKey;
    assert IsHeader(line);
    NewDefHeaderOfFormat(h, ignored);
  }

  /** A written body line whose tag neither starts with a space or `#` nor
      with `CMTCODE:` is a body line and is added to the current entity. */
  lemma StepOfFormatBody(es: seq<Entity>, b: Body)
    requires es != []
    requires IsToken(b.tag) && IsToken(b.desc) && IsToken(b.path) && IsToken(b.typ)
    requires !b.isEmbeddedSet && b.embeddedSet == None
    requires !IsSpace(b.tag[0]) && b.tag[0] != '#' && !(CodeKey <= b.tag)
    ensures Step(es, FormatBody(b)) == Ok(AddBody(es, b))
  {
    var line := FormatBody(b);
    var ts := [b.tag, b.desc, b.path, if b.required then "M" else "O",
               if b.sign then "y" else "n", b.typ];
    var rest := JoinTokens(ts[1..]);
    assert line == b.tag + " " + rest;
    assert line[0] == b.tag[0];
    assert !IsComment(line);
    NotBlankOfFirst(line);
    assert ' ' !in CodeKey;
    KeyNotAcrossBlank(CodeKey, b.tag, rest);
    StepOnBody(es, line);
    NewDefBodyOfFormat(b);
  }

  /** A line whose first character is not space is not blank. */
  lemma NotBlankOfFirst(line: string)
    requires line != [] && !IsSpace(line[0])
    ensures !IsBlank(line)
  {
    assert SpaceRunEnd(line, 0) == 0;
  }

  /** A key without blanks that is not a prefix of the first word is not a
      prefix of the line either. */
  lemma KeyNotAcrossBlank(key: string, w: string, rest: string)
    requires ' ' !in key && !(key <= w)
    ensures !(key <= w + " " + rest)
  {
    var t := " " + rest;
    assert w + " " + rest == w + t;
    if |key| <= |w| {
      PrefixWithin(key, w, t);
    } else {
      PrefixBeyond(key, w, t);
    }
  }

  lemma PrefixWithin(key: string, w: string, t: string)
    requires |key| <= |w|
    ensures key <= w + t <==> key <= w
  {
    assert (w + t)[..|key|] == w[..|key|];
  }

  lemma PrefixBeyond(key: string, w: string, t: string)
    requires |key| > |w| && t != []
    ensures key <= w + t ==> key[|w|] == t[0]
  {
    if key <= w + t {
      assert (w + t)[|w|] == t[0];
    }
  }

  // ---------------------------------------------------------------------
  // Reading back written entities

  /** A header that can be written as a line and read back: its fields and
      the ignored second token are tokens without U+FEFF, and the line does
      not end in space. */
  predicate WritableHeader(h: Header, ignored: string) {
    && IsToken(h.cmtCode) && IsToken(h.path) && IsToken(h.parent) && IsToken(ignored)
    && !IsSpace(h.parent[|h.parent| - 1])
    && Bom !in h.cmtCode && Bom !in ignored && Bom !in h.path && Bom !in h.parent
  }

  /** A body that can be written as a line and read back: its fields are
      tokens without U+FEFF, it has no link, and its line neither starts or
      ends in space nor reads as a comment or a header. */
  predicate WritableBody(b: Body) {
    && IsToken(b.tag) && IsToken(b.desc) && IsToken(b.path) && IsToken(b.typ)
    && !b.isEmbeddedSet && b.embeddedSet == None
    && !IsSpace(b.tag[0]) && b.tag[0] != '#' && !(CodeKey <= b.tag)
    && !IsSpace(b.typ[|b.typ| - 1])
    && Bom !in b.tag && Bom !in b.desc && Bom !in b.path && Bom !in b.typ
  }

  predicate WritableBodies(bs: seq<Body>) {
    forall j :: 0 <= j < |bs| ==> WritableBody(bs[j])
  }

  predicate Writable(es: seq<Entity>, ignored: string) {
    forall k :: 0 <= k < |es| ==> WritableHeader(es[k].header, ignored) && WritableBodies(es[k].bodies)
  }

  /** One line per body. */
  function BodyLines(bs: seq<Body>): seq<string>
    decreases |bs|
  {
    if bs == [] then [] else [FormatBody(bs[0])] + BodyLines(bs[1..])
  }

  /** An entity's header line, with `ignored` as its second token, then its
      body lines. */
  function EntityLines(e: Entity, ignored: string): seq<string> {
    [FormatHeader(e.header, ignored)] + BodyLines(e.bodies)
  }

  /** The lines of a definition file that writes `es` in order. */
  function FileLines(es: seq<Entity>, ignored: string): seq<string>
    decreases |es|
  {
    if es == [] then [] else EntityLines(es[0], ignored) + FileLines(es[1..], ignored)
  }

  /** Every line is left alone by `readFileToStrings`, first or not. */
  predicate CleanLines(lines: seq<string>) {
    forall i :: 0 <= i < |lines| ==> CleanLine(lines[i], true) == lines[i] && CleanLine(lines[i], false) == lines[i]
  }

  lemma CleanLinesConcat(a: seq<string>, b: seq<string>)
    requires CleanLines(a) && CleanLines(b)
    ensures CleanLines(a + b)
  {
    forall i | 0 <= i < |a + b|
      ensures CleanLine((a + b)[i], true) == (a + b)[i] && CleanLine((a + b)[i], false) == (a + b)[i]
    {
      if i < |a| { assert (a + b)[i] == a[i]; } else { assert (a + b)[i] == b[i - |a|]; }
    }
  }

  lemma {:induction false} BodyLinesClean(bs: seq<Body>)
    requires WritableBodies(bs)
    ensures CleanLines(BodyLines(bs))
    decreases |bs|
  {
    if bs != [] {
      assert WritableBody(bs[0]);
      CleanFormatBody(bs[0], true);
      CleanFormatBody(bs[0], false);
      BodyLinesClean(bs[1..]);
      CleanLinesConcat([FormatBody(bs[0])], BodyLines(bs[1..]));
    }
  }

  lemma {:induction false} FileLinesClean(es: seq<Entity>, ignored: string)
    requires Writable(es, ignored)
    ensures CleanLines(FileLines(es, ignored))
    decreases |es|
  {
    if es != [] {
      var h := es[0].header;
      assert WritableHeader(h, ignored) && WritableBodies(es[0].bodies);
      CleanFormatHeader(h, ignored, true);
      CleanFormatHeader(h, ignored, false);
      BodyLinesClean(es[0].bodies);
      CleanLinesConcat([FormatHeader(h, ignored)], BodyLines(es[0].bodies));
      FileLinesClean(es[1..], ignored);
      CleanLinesConcat(EntityLines(es[0], ignored), FileLines(es[1..], ignored));
    }
  }

  /** Lines that `readFileToStrings` leaves alone come out as they went in. */
  lemma PreprocessClean(lines: seq<string>)
    requires CleanLines(lines)
    ensures Preprocess(lines) == lines
  {
    assert forall i :: 0 <= i < |lines| ==> Preprocess(lines)[i] == lines[i];
  }

  /** When the loop over `a` succeeds, the loop over `a + b` goes on over `b`
      from where it stopped. */
  lemma {:induction false} ScanConcat(es: seq<Entity>, a: seq<string>, b: seq<string>)
    requires Scan(es, a).Ok?
    ensures Scan(es, a + b) == Scan(Scan(es, a).value, b)
    decreases |a|
  {
    if a == [] {
      assert a + b == b;
    } else {
      assert Step(es, a[0]).Ok?;
      ConcatHeadTail(a, b);
      ScanConcat(Step(es, a[0]).value, a[1..], b);
    }
  }

  lemma ConcatHeadTail<T>(a: seq<T>, b: seq<T>)
    requires a != []
    ensures (a + b)[0] == a[0] && (a + b)[1..] == a[1..] + b
  {
  }

  /** Written body lines add their bodies, in order, to the current entity. */
  lemma {:induction false} ScanBodyLines(es: seq<Entity>, bs: seq<Body>)
    requires es != [] && WritableBodies(bs)
    ensures Scan(es, BodyLines(bs)) == Ok(WithBodies(es, bs))
    decreases |bs|
  {
    if bs == [] {
      WithNoBodies(es);
    } else {
      var b, rest := bs[0], bs[1..];
      assert bs == [b] + rest;
      assert BodyLines(bs) == [FormatBody(b)] + BodyLines(rest);
      assert WritableBody(b) && WritableBodies(rest);
      ScanBodyStep(es, b, BodyLines(rest));
      ScanBodyLines(AddBody(es, b), rest);
      WithBodiesStep(es, b, rest);
    }
  }

  /** `es` with `bs` appended to the bodies of its last entity. */
  function WithBodies(es: seq<Entity>, bs: seq<Body>): (r: seq<Entity>)
    requires es != []
    ensures |r| == |es| && r[..|es| - 1] == es[..|es| - 1]
    ensures r[|es| - 1] == Entity(es[|es| - 1].header, es[|es| - 1].bodies + bs)
  {
    es[..|es| - 1] + [Entity(es[|es| - 1].header, es[|es| - 1].bodies + bs)]
  }

  lemma WithNoBodies(es: seq<Entity>)
    requires es != []
    ensures WithBodies(es, []) == es
  {
    var r := WithBodies(es, []);
    assert r[|es| - 1] == es[|es| - 1];
    assert forall i :: 0 <= i < |es| - 1 ==> r[i] == r[..|es| - 1][i];
  }

  lemma WithBodiesStep(es: seq<Entity>, b: Body, rest: seq<Body>)
    requires es != []
    ensures WithBodies(AddBody(es, b), rest) == WithBodies(es, [b] + rest)
  {
    var n := |es| - 1;
    assert es[n].bodies + [b] + rest == es[n].bodies + ([b] + rest);
  }

  /** One written body line: the loop goes on with the body added. */
  lemma ScanBodyStep(es: seq<Entity>, b: Body, rest: seq<string>)
    requires es != [] && WritableBody(b)
    ensures Scan(es, [FormatBody(b)] + rest) == Scan(AddBody(es, b), rest)
  {
    StepOfFormatBody(es, b);
    ScanCons(es, FormatBody(b), rest);
  }

  /** After a step that succeeds on the first line, the loop goes on over
      the rest. */
  lemma ScanCons(es: seq<Entity>, line: string, rest: seq<string>)
    requires Step(es, line).Ok?
    ensures Scan(es, [line] + rest) == Scan(Step(es, line).value, rest)
  {
    assert ([line] + rest)[0] == line;
    assert ([line] + rest)[1..] == rest;
  }

  /** A written entity appends that entity to the list. */
  lemma ScanEntityLines(es: seq<Entity>, e: Entity, ignored: string)
    requires WritableHeader(e.header, ignored) && WritableBodies(e.bodies)
    ensures Scan(es, EntityLines(e, ignored)) == Ok(es + [e])
  {
    StepOfFormatHeader(es, e.header, ignored);
    ScanCons(es, FormatHeader(e.header, ignored), BodyLines(e.bodies));
    var es1 := es + [Entity(e.header, [])];
    ScanBodyLines(es1, e.bodies);
    assert es1[..|es1| - 1] == es;
    assert [] + e.bodies == e.bodies;
  }

  /** A written file appends its entities, in order, to the list. */
  lemma {:induction false} ScanFileLines(es: seq<Entity>, fs: seq<Entity>, ignored: string)
    requires Writable(fs, ignored)
    ensures Scan(es, FileLines(fs, ignored)) == Ok(es + fs)
    decreases |fs|
  {
    if fs == [] {
      assert es + fs == es;
    } else {
      WritableSplit(fs, ignored);
      ScanFileLines(es + [fs[0]], fs[1..], ignored);
      ScanFileLinesCons(es, fs, ignored);
    }
  }

  lemma ScanFileLinesCons(es: seq<Entity>, fs: seq<Entity>, ignored: string)
    requires fs != [] && WritableHeader(fs[0].header, ignored) && WritableBodies(fs[0].bodies)
    requires Scan(es + [fs[0]], FileLines(fs[1..], ignored)) == Ok(es + [fs[0]] + fs[1..])
    ensures Scan(es, FileLines(fs, ignored)) == Ok(es + fs)
  {
    var a, b := EntityLines(fs[0], ignored), FileLines(fs[1..], ignored);
    ScanEntityLines(es, fs[0], ignored);
    AppendHeadThenTail(es, fs);
    ScanThen(es, FileLines(fs, ignored), a, b, es + [fs[0]], es + fs);
  }

  lemma AppendHeadThenTail<T>(xs: seq<T>, ys: seq<T>)
    requires ys != []
    ensures xs + [ys[0]] + ys[1..] == xs + ys
  {
    assert [ys[0]] + ys[1..] == ys;
  }

  lemma WritableSplit(fs: seq<Entity>, ignored: string)
    requires fs != [] && Writable(fs, ignored)
    ensures WritableHeader(fs[0].header, ignored) && WritableBodies(fs[0].bodies)
    ensures Writable(fs[1..], ignored)
  {
    assert forall k :: 0 <= k < |fs| - 1 ==> fs[1..][k] == fs[k + 1];
  }

  /** Two loops that succeed in turn make one loop over both line lists. */
  lemma ScanThen(es: seq<Entity>, lines: seq<string>, a: seq<string>, b: seq<string>,
                 mid: seq<Entity>, out: seq<Entity>)
    requires lines == a + b && Scan(es, a) == Ok(mid) && Scan(mid, b) == Ok(out)
    ensures Scan(es, lines) == Ok(out)
  {
    ScanConcat(es, a, b);
  }

  /** Round trip: reading a written, non-empty list of entities succeeds iff
      no entity repeats a tag, and then gives back exactly that list. */
  lemma ReadPlainOfFileLines(es: seq<Entity>, ignored: string)
    requires es != [] && Writable(es, ignored)
    ensures ReadPlain(FileLines(es, ignored)).Ok? <==>
      forall k :: 0 <= k < |es| ==> DistinctTags(es[k].bodies)
    ensures ReadPlain(FileLines(es, ignored)).Ok? ==> ReadPlain(FileLines(es, ignored)).value == es
  {
    var lines := FileLines(es, ignored);
    FileLinesClean(es, ignored);
    PreprocessClean(lines);
    ScanFileLines([], es, ignored);
    assert [] + es == es;
    FileLinesNonEmpty(es, ignored);
    ReadPlainOfScan(lines, es);
  }

  /** A non-empty file whose loop gives `es` reads as `es` iff no entity
      repeats a tag. */
  lemma ReadPlainOfScan(raw: seq<string>, es: seq<Entity>)
    requires |raw| > 0 && Scan([], Preprocess(raw)) == Ok(es)
    ensures ReadPlain(raw).Ok? <==> forall k :: 0 <= k < |es| ==> DistinctTags(es[k].bodies)
    ensures ReadPlain(raw).Ok? ==> ReadPlain(raw).value == es
  {
    assert |Preprocess(raw)| == |raw|;
  }

  lemma FileLinesNonEmpty(es: seq<Entity>, ignored: string)
    requires es != []
    ensures |FileLines(es, ignored)| > 0
  {
    assert |EntityLines(es[0], ignored)| > 0;
  }
}
