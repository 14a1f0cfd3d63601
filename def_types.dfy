/**
  The records of a definition file (DefHeader, DefBody, DefEntity) and the
  errors the reader reports.

  Go's `*DefEntity` pointers are modelled by indices into the flat, ordered
  entity sequence: a body's `EmbeddedSet` is `Some(k)` when it points at the
  k-th entity of that sequence.
 */
module DefTypes {

  datatype Option<+T> = None | Some(value: T)

  /** The parsed `CMTCODE:<code> <ignored> PATH:<path> ParentCMTCODE:<parent>` line. */
  datatype Header = Header(cmtCode: string, path: string, parent: string)

  /** One field line: `tag desc path req sign type`. */
  datatype Body = Body(
    tag: string,
    desc: string,
    path: string,
    required: bool,
    sign: bool,
    typ: string,
    isEmbeddedSet: bool,
    embeddedSet: Option<nat>)

  /** A header and the bodies that followed it, in input order. */
  datatype Entity = Entity(header: Header, bodies: seq<Body>)

  /** The failures of the reader; the two `nil` dereferences of the Go code
      (a body before any header, a parent code not seen yet) are explicit here. */
  datatype Error =
    | EmptyFile                                  // "the Xml Def file is empty"
    | InvalidHeader(line: string)                // "the %s header is invalid"
    | InvalidBody(line: string)                  // "the %s body is invalid"
    | BodyBeforeHeader(line: string)             // Go: nil `entity` dereferenced
    | DuplicatedTag(tag: string, cmtCode: string)
    | EmptyEntity                                // "the entity is empty"
    | DuplicatedCode(cmtCode: string)
    | UnknownParent(cmtCode: string, parent: string) // Go: nil parent dereferenced

  datatype Result<+T> = Ok(value: T) | Err(error: Error)

  /** The sentinel parent code of a root entity. */
  const RootParent: string := "NULL"
}
