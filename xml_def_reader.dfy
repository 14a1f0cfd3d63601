/**
  `ReadXmlDef` (codegen/xml_def_reader.go): read the flat entity list, reject
  a file that yields no entity, and build the tree.

  `ReadXmlDefSpec` is the whole reader as a function of the lines the scanner
  produced; the lemmas below state what a successful read returns and when a
  read fails, in terms of the lines and the entity list alone.
 */
module XmlDefReader {

  import opened DefTypes
  import opened Text
  import opened LineParser
  import opened PlainReader
  import opened TreeBuilder

  /** `ReadXmlDef` on the lines of the file. */
  function ReadXmlDefSpec(raw: seq<string>): Result<Forest> {
    match ReadPlain(raw)
    case Err(e) => Err(e)
    case Ok(es) => if |es| == 0 then Err(EmptyEntity) else BuildTree(es)
  }

  /** `ReadXmlDef`: the plain read, the empty-entity check, the tree build. */
  method ReadXmlDef(raw: seq<string>) returns (r: Result<Forest>)
    ensures r == ReadXmlDefSpec(raw)
  {
    var allEntities := ReadPlainXmlDef(raw);
    if allEntities.Err? {
      return Err(allEntities.error);
    }
    if |allEntities.value| == 0 {
      return Err(EmptyEntity);
    }
    r := BuildXmlDefTree(allEntities.value);
  }

  /** A read succeeds iff the plain read succeeds with at least one entity,
      the codes are pairwise distinct and every parent is `NULL` or a code at
      or before its child. An empty file and a file without header are
      rejected with their own errors. */
  lemma ReadXmlDefSucceeds(raw: seq<string>)
    ensures ReadXmlDefSpec(raw).Ok? <==>
      && ReadPlain(raw).Ok? && |ReadPlain(raw).value| > 0
      && CodesDistinct(ReadPlain(raw).value) && ParentsSeen(ReadPlain(raw).value)
    ensures raw == [] ==> ReadXmlDefSpec(raw) == Err(EmptyFile)
    ensures ReadPlain(raw) == Ok([]) ==> ReadXmlDefSpec(raw) == Err(EmptyEntity)
  {
    if ReadPlain(raw).Ok? {
      BuildTreeSucceeds(ReadPlain(raw).value);
    }
  }

  /** A file whose lines are all blank or comments has no entity. */
  lemma OnlySkippedLinesIsEmptyEntity(raw: seq<string>)
    requires |raw| > 0
    requires forall i :: 0 <= i < |raw| ==> IsBlank(Preprocess(raw)[i]) || IsComment(Preprocess(raw)[i])
    ensures ReadXmlDefSpec(raw) == Err(EmptyEntity)
  {
    ScanSkipsAll(Preprocess(raw));
  }

  lemma {:induction false} ScanSkipsAll(lines: seq<string>)
    requires forall i :: 0 <= i < |lines| ==> IsBlank(lines[i]) || IsComment(lines[i])
    ensures Scan([], lines) == Ok([])
    decreases |lines|
  {
    if lines != [] {
      assert IsBlank(lines[0]) || IsComment(lines[0]);
      ScanSkipsAll(lines[1..]);
    }
  }

  /** What a successful read returns, against the entity list of the plain
      read: that list groups the kept lines; tags are distinct in every
      entity and codes across entities; the root map has exactly the `NULL`
      parent entities' codes, each mapped to its entity; and each entity keeps
      its header and its bodies, a body carrying the link to the last child of
      its entity whose header path is the body's path. */
  lemma ReadXmlDefOk(raw: seq<string>)
    requires ReadXmlDefSpec(raw).Ok?
    ensures ReadPlain(raw).Ok? && |ReadPlain(raw).value| > 0
    ensures var es := ReadPlain(raw).value;
      && LineItems(Preprocess(raw)).Ok?
      && Flatten(es) == LineItems(Preprocess(raw)).value
      && (forall k :: 0 <= k < |es| ==> DistinctTags(es[k].bodies))
      && CodesDistinct(es) && ParentsSeen(es) && Unlinked(es)
    ensures var es := ReadPlain(raw).value;
      var f := ReadXmlDefSpec(raw).value;
      && RootsFit(es, |es|, f.roots)
      && LinksFit(es, |es|, f.entities)
  {
    var es := ReadPlain(raw).value;
    ReadPlainOk(raw);
    ReadXmlDefSucceeds(raw);
    BuildTreeResult(es);
  }

  /** In a successful read, a non-root entity is never a key of the root
      map and a root entity is the value of its own code. */
  lemma ReadXmlDefRoots(raw: seq<string>, k: nat)
    requires ReadXmlDefSpec(raw).Ok?
    requires ReadPlain(raw).Ok? && k < |ReadPlain(raw).value|
    ensures var e := ReadPlain(raw).value[k];
      var roots := ReadXmlDefSpec(raw).value.roots;
      && (e.header.cmtCode in roots <==> e.header.parent == RootParent)
      && (e.header.cmtCode in roots ==> roots[e.header.cmtCode] == k)
  {
    ReadXmlDefOk(raw);
    RootKeys(ReadPlain(raw).value, ReadXmlDefSpec(raw).value.roots, k);
  }

  /** In a successful read, a body is marked embedded iff it has a link, the
      link is to a child of its entity with the body's path and no later such
      child exists, and every other field is the one read from its line.
      The link points at the entity itself only when that entity names its
      own code as parent; otherwise it points strictly forward, so without
      self-parenting the links form no cycle. */
  lemma ReadXmlDefLinks(raw: seq<string>, k: nat, j: nat)
    requires ReadXmlDefSpec(raw).Ok?
    requires ReadPlain(raw).Ok? && k < |ReadPlain(raw).value| && j < |ReadPlain(raw).value[k].bodies|
    ensures var f := ReadXmlDefSpec(raw).value;
      |f.entities| == |ReadPlain(raw).value| && |f.entities[k].bodies| == |ReadPlain(raw).value[k].bodies|
    ensures var es := ReadPlain(raw).value;
      var b0 := es[k].bodies[j];
      var b := ReadXmlDefSpec(raw).value.entities[k].bodies[j];
      && b.(isEmbeddedSet := false, embeddedSet := None) == b0
      && (b.isEmbeddedSet <==> b.embeddedSet.Some?)
      && (b.embeddedSet.Some? ==>
            var c := b.embeddedSet.value;
            && k <= c < |es| && ChildOf(es, c, k) && es[c].header.path == b0.path
            && (forall d :: c < d < |es| ==> !(ChildOf(es, d, k) && es[d].header.path == b0.path))
            && (c == k ==> es[k].header.parent == es[k].header.cmtCode))
      && (b.embeddedSet.None? ==> forall d :: 0 <= d < |es| ==> !(ChildOf(es, d, k) && es[d].header.path == b0.path))
  {
    ReadXmlDefOk(raw);
    var es := ReadPlain(raw).value;
    assert !es[k].bodies[j].isEmbeddedSet && es[k].bodies[j].embeddedSet == None;
  }

  /** Reading a written, non-empty list of entities in which no entity
      repeats a tag is building the tree of exactly that list. */
  lemma ReadXmlDefOfFileLines(es: seq<Entity>, ignored: string)
    requires es != [] && Writable(es, ignored)
    requires forall k :: 0 <= k < |es| ==> DistinctTags(es[k].bodies)
    ensures ReadXmlDefSpec(FileLines(es, ignored)) == BuildTree(es)
  {
    ReadPlainOfFileLines(es, ignored);
  }

  /** The entities of the example file, before linking. */
  function ExampleEntities(): seq<Entity> {
    [Entity(Header("MSG1", "/root", RootParent),
            [Body("F1", "Field1", "/root/f1", true, true, "int", false, None),
             Body("F2", "Field2", "/root/group", false, false, "group", false, None)]),
     Entity(Header("GRP1", "/root/group", "MSG1"),
            [Body("G1", "Sub1", "/root/group/g1", true, false, "int", false, None)])]
  }

  /** The lines of the example file. */
  function ExampleLines(): seq<string> {
    [ "CMTCODE:MSG1 v1 PATH:/root ParentCMTCODE:NULL",
      "F1 Field1 /root/f1 M y int",
      "F2 Field2 /root/group O n group",
      "CMTCODE:GRP1 v1 PATH:/root/group ParentCMTCODE:MSG1",
      "G1 Sub1 /root/group/g1 M n int" ]
  }

  lemma ExampleHeaderLines()
    ensures FormatHeader(ExampleEntities()[0].header, "v1") == ExampleLines()[0]
    ensures FormatHeader(ExampleEntities()[1].header, "v1") == ExampleLines()[3]
  {
    MessageHeaderLine();
    GroupHeaderLine();
  }

  // The text of each example line is built up piece by piece: the solver
  // compares literal strings character by character, and short steps keep
  // each comparison small.

  lemma MessageHeaderLine()
    ensures FormatHeader(Header("MSG1", "/root", RootParent), "v1")
            == "CMTCODE:MSG1 v1 PATH:/root ParentCMTCODE:NULL"
  {
    FormatHeaderFields(Header("MSG1", "/root", RootParent), "v1");
    MessageHeaderLineFront();
    MessageHeaderLineBack();
  }

  lemma MessageHeaderLineFront()
    ensures CodeKey + "MSG1" + " " + "v1" + " " + PathKey == "CMTCODE:MSG1 v1 PATH:"
  {
    assert CodeKey == "CMTCODE:" && PathKey == "PATH:";
    assert "CMTCODE:" + "MSG1" == "CMTCODE:MSG1";
    assert "CMTCODE:MSG1" + " " == "CMTCODE:MSG1 ";
    assert "CMTCODE:MSG1 " + "v1" == "CMTCODE:MSG1 v1";
    assert "CMTCODE:MSG1 v1" + " " == "CMTCODE:MSG1 v1 ";
    assert "CMTCODE:MSG1 v1 " + PathKey == "CMTCODE:MSG1 v1 PATH:";
  }

  lemma MessageHeaderLineBack()
    ensures "CMTCODE:MSG1 v1 PATH:" + "/root" + " " + ParentKey + "NULL" == "CMTCODE:MSG1 v1 PATH:/root ParentCMTCODE:NULL"
  {
    assert ParentKey == "ParentCMTCODE:";
    assert "CMTCODE:MSG1 v1 PATH:" + "/root" == "CMTCODE:MSG1 v1 PATH:/root";
    assert "CMTCODE:MSG1 v1 PATH:/root" + " " == "CMTCODE:MSG1 v1 PATH:/root ";
    assert "CMTCODE:MSG1 v1 PATH:/root " + ParentKey == "CMTCODE:MSG1 v1 PATH:/root ParentCMTCODE:";
    assert "CMTCODE:MSG1 v1 PATH:/root ParentCMTCODE:" + "NULL" == "CMTCODE:MSG1 v1 PATH:/root ParentCMTCODE:NULL";
  }

  lemma GroupHeaderLine()
    ensures FormatHeader(Header("GRP1", "/root/group", "MSG1"), "v1")
            == "CMTCODE:GRP1 v1 PATH:/root/group ParentCMTCODE:MSG1"
  {
    FormatHeaderFields(Header("GRP1", "/root/group", "MSG1"), "v1");
    GroupHeaderLineFront();
    GroupHeaderLineBack();
  }

  lemma GroupHeaderLineFront()
    ensures CodeKey + "GRP1" + " " + "v1" + " " + PathKey == "CMTCODE:GRP1 v1 PATH:"
  {
    assert CodeKey == "CMTCODE:" && PathKey == "PATH:";
    assert "CMTCODE:" + "GRP1" == "CMTCODE:GRP1";
    assert "CMTCODE:GRP1" + " " == "CMTCODE:GRP1 ";
    assert "CMTCODE:GRP1 " + "v1" == "CMTCODE:GRP1 v1";
    assert "CMTCODE:GRP1 v1" + " " == "CMTCODE:GRP1 v1 ";
    assert "CMTCODE:GRP1 v1 " + PathKey == "CMTCODE:GRP1 v1 PATH:";
  }

  lemma GroupHeaderLineBack()
    ensures "CMTCODE:GRP1 v1 PATH:" + "/root/group" + " " + ParentKey + "MSG1" == "CMTCODE:GRP1 v1 PATH:/root/group ParentCMTCODE:MSG1"
  {
    assert ParentKey == "ParentCMTCODE:";
    assert "CMTCODE:GRP1 v1 PATH:" + "/root/group" == "CMTCODE:GRP1 v1 PATH:/root/group";
    assert "CMTCODE:GRP1 v1 PATH:/root/group" + " " == "CMTCODE:GRP1 v1 PATH:/root/group ";
    assert "CMTCODE:GRP1 v1 PATH:/root/group " + ParentKey == "CMTCODE:GRP1 v1 PATH:/root/group ParentCMTCODE:";
    assert "CMTCODE:GRP1 v1 PATH:/root/group ParentCMTCODE:" + "MSG1" == "CMTCODE:GRP1 v1 PATH:/root/group ParentCMTCODE:MSG1";
  }

  lemma ExampleBodyLines()
    ensures FormatBody(ExampleEntities()[0].bodies[0]) == ExampleLines()[1]
    ensures FormatBody(ExampleEntities()[0].bodies[1]) == ExampleLines()[2]
    ensures FormatBody(ExampleEntities()[1].bodies[0]) == ExampleLines()[4]
  {
    FieldOneLine();
    FieldTwoLine();
    GroupFieldLine();
  }

  lemma FieldOneLine()
    ensures FormatBody(Body("F1", "Field1", "/root/f1", true, true, "int", false, None))
            == "F1 Field1 /root/f1 M y int"
  {
    FormatBodyFields(Body("F1", "Field1", "/root/f1", true, true, "int", false, None));
    assert "F1" + " " == "F1 ";
    assert "F1 " + "Field1" == "F1 Field1";
    assert "F1 Field1" + " " == "F1 Field1 ";
    assert "F1 Field1 " + "/root/f1" == "F1 Field1 /root/f1";
    assert "F1 Field1 /root/f1" + " " == "F1 Field1 /root/f1 ";
    assert "F1 Field1 /root/f1 " + "M" == "F1 Field1 /root/f1 M";
    assert "F1 Field1 /root/f1 M" + " " == "F1 Field1 /root/f1 M ";
    assert "F1 Field1 /root/f1 M " + "y" == "F1 Field1 /root/f1 M y";
    assert "F1 Field1 /root/f1 M y" + " " == "F1 Field1 /root/f1 M y ";
  }

  lemma FieldTwoLine()
    ensures FormatBody(Body("F2", "Field2", "/root/group", false, false, "group", false, None))
            == "F2 Field2 /root/group O n group"
  {
    FormatBodyFields(Body("F2", "Field2", "/root/group", false, false, "group", false, None));
    assert "F2" + " " == "F2 ";
    assert "F2 " + "Field2" == "F2 Field2";
    assert "F2 Field2" + " " == "F2 Field2 ";
    assert "F2 Field2 " + "/root/group" == "F2 Field2 /root/group";
    assert "F2 Field2 /root/group" + " " == "F2 Field2 /root/group ";
    assert "F2 Field2 /root/group " + "O" == "F2 Field2 /root/group O";
    assert "F2 Field2 /root/group O" + " " == "F2 Field2 /root/group O ";
    assert "F2 Field2 /root/group O " + "n" == "F2 Field2 /root/group O n";
    assert "F2 Field2 /root/group O n" + " " == "F2 Field2 /root/group O n ";
  }

  lemma GroupFieldLine()
    ensures FormatBody(Body("G1", "Sub1", "/root/group/g1", true, false, "int", false, None))
            == "G1 Sub1 /root/group/g1 M n int"
  {
    FormatBodyFields(Body("G1", "Sub1", "/root/group/g1", true, false, "int", false, None));
    assert "G1" + " " == "G1 ";
    assert "G1 " + "Sub1" == "G1 Sub1";
    assert "G1 Sub1" + " " == "G1 Sub1 ";
    assert "G1 Sub1 " + "/root/group/g1" == "G1 Sub1 /root/group/g1";
    assert "G1 Sub1 /root/group/g1" + " " == "G1 Sub1 /root/group/g1 ";
    assert "G1 Sub1 /root/group/g1 " + "M" == "G1 Sub1 /root/group/g1 M";
    assert "G1 Sub1 /root/group/g1 M" + " " == "G1 Sub1 /root/group/g1 M ";
    assert "G1 Sub1 /root/group/g1 M " + "n" == "G1 Sub1 /root/group/g1 M n";
    assert "G1 Sub1 /root/group/g1 M n" + " " == "G1 Sub1 /root/group/g1 M n ";
  }

  lemma ExampleFileLines()
    ensures FileLines(ExampleEntities(), "v1") == ExampleLines()
  {
    var es := ExampleEntities();
    ExampleHeaderLines();
    ExampleBodyLines();
    assert BodyLines(es[1].bodies) == [ExampleLines()[4]];
    assert BodyLines(es[0].bodies) == [ExampleLines()[1], ExampleLines()[2]];
    assert FileLines(es[1..], "v1") == [ExampleLines()[3], ExampleLines()[4]];
  }

  lemma ExampleWritable()
    ensures Writable(ExampleEntities(), "v1")
    ensures forall k :: 0 <= k < |ExampleEntities()| ==> DistinctTags(ExampleEntities()[k].bodies)
  {
    var es := ExampleEntities();
    MessageWritable();
    GroupWritable();
    assert WritableBodies(es[0].bodies) by {
      FieldOneWritable();
      FieldTwoWritable();
    }
    assert WritableBodies(es[1].bodies) by {
      GroupFieldWritable();
    }
  }

  lemma MessageWritable()
    ensures WritableHeader(Header("MSG1", "/root", RootParent), "v1")
  {
    assert !IsSpace("NULL"[3]);
  }

  lemma GroupWritable()
    ensures WritableHeader(Header("GRP1", "/root/group", "MSG1"), "v1")
  {
    assert !IsSpace("MSG1"[3]);
  }

  lemma FieldOneWritable()
    ensures WritableBody(Body("F1", "Field1", "/root/f1", true, true, "int", false, None))
  {
    assert |"F1"| < |CodeKey|;
  }

  lemma FieldTwoWritable()
    ensures WritableBody(Body("F2", "Field2", "/root/group", false, false, "group", false, None))
  {
    assert |"F2"| < |CodeKey|;
  }

  lemma GroupFieldWritable()
    ensures WritableBody(Body("G1", "Sub1", "/root/group/g1", true, false, "int", false, None))
  {
    assert |"G1"| < |CodeKey|;
  }

  /** End to end: the five-line file of a message `MSG1` with a field `F2`
      whose path is that of its child group `GRP1`. `F2` is linked to `GRP1`,
      `F1` and `G1` are not, and only `MSG1` is a root. */
  lemma MessageWithGroupFile()
    ensures ReadXmlDefSpec([
        "CMTCODE:MSG1 v1 PATH:/root ParentCMTCODE:NULL",
        "F1 Field1 /root/f1 M y int",
        "F2 Field2 /root/group O n group",
        "CMTCODE:GRP1 v1 PATH:/root/group ParentCMTCODE:MSG1",
        "G1 Sub1 /root/group/g1 M n int"])
      == Ok(Forest(map["MSG1" := 0], [
           Entity(Header("MSG1", "/root", RootParent),
                  [Body("F1", "Field1", "/root/f1", true, true, "int", false, None),
                   Body("F2", "Field2", "/root/group", false, false, "group", true, Some(1))]),
           Entity(Header("GRP1", "/root/group", "MSG1"),
                  [Body("G1", "Sub1", "/root/group/g1", true, false, "int", false, None)])]))
  {
    ExampleFileLines();
    ExampleWritable();
    ReadXmlDefOfFileLines(ExampleEntities(), "v1");
    MessageWithGroup();
  }
}
