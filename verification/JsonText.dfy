/** JSON texts as written: RFC 8259, sections 2 (whitespace, separators), 4 (objects), 5 (arrays) and 7 (strings),
    with the one deviation that a non-empty container may be printed with a comma after its last element. */
module JsonText {

  /** One character of a string body: itself, a two-character escape, or a `\u` escape with four hex digits. */
  datatype Piece = Plain(c: char) | Escape(c: char) | Unicode(hex: string)

  /** `extra` prints the comma before the closer; `tail` is the whitespace that stands there. */
  datatype Json =
    | Scalar(text: string)
    | Str(body: seq<Piece>)
    | Arr(items: Items, extra: bool, tail: string)
    | Obj(members: Members, extra: bool, tail: string)

  datatype Items = NoItem | Item(before: string, value: Json, after: string, rest: Items)

  datatype Members = NoMember | Member(before: string, key: seq<Piece>, mid: string, gap: string, value: Json,
      after: string, rest: Members)

  predicate IsWs(s: string) {
    forall i | 0 <= i < |s| :: s[i] in {' ', '\t', '\n', '\r'}
  }

  predicate IsHex(c: char) {
    '0' <= c <= '9' || 'a' <= c <= 'f' || 'A' <= c <= 'F'
  }

  /** The characters of numbers and of the literal names. */
  predicate IsScalarChar(c: char) {
    '0' <= c <= '9' || 'a' <= c <= 'z' || 'A' <= c <= 'Z' || c in {'+', '-', '.'}
  }

  predicate ValidPiece(p: Piece) {
    match p
    case Plain(c) => c >= ' ' && c != '"' && c != '\\'
    case Escape(c) => c in {'"', '\\', '/', 'b', 'f', 'n', 'r', 't'}
    case Unicode(hex) => |hex| == 4 && forall i | 0 <= i < 4 :: IsHex(hex[i])
  }

  predicate ValidBody(body: seq<Piece>) {
    forall i | 0 <= i < |body| :: ValidPiece(body[i])
  }

  predicate Valid(v: Json) {
    match v
    case Scalar(text) => text != "" && forall i | 0 <= i < |text| :: IsScalarChar(text[i])
    case Str(body) => ValidBody(body)
    case Arr(items, _, tail) => ValidItems(items) && IsWs(tail)
    case Obj(members, _, tail) => ValidMembers(members) && IsWs(tail)
  }

  predicate ValidItems(items: Items) {
    items.Item? ==> IsWs(items.before) && Valid(items.value) && IsWs(items.after) && ValidItems(items.rest)
  }

  predicate ValidMembers(members: Members) {
    members.Member? ==>
      && IsWs(members.before) && ValidBody(members.key) && IsWs(members.mid)
      && IsWs(members.gap) && Valid(members.value) && IsWs(members.after) && ValidMembers(members.rest)
  }

  function PrintPiece(p: Piece): string {
    match p
    case Plain(c) => [c]
    case Escape(c) => ['\\', c]
    case Unicode(hex) => ['\\', 'u'] + hex
  }

  function PrintBody(body: seq<Piece>): string {
    if body == [] then "" else PrintPiece(body[0]) + PrintBody(body[1..])
  }

  function PrintString(body: seq<Piece>): string {
    "\"" + (PrintBody(body) + "\"")
  }

  function Comma(there: bool): string {
    if there then "," else ""
  }

  function Print(v: Json): string {
    match v
    case Scalar(text) => text
    case Str(body) => PrintString(body)
    case Arr(items, extra, tail) => "[" + (PrintItems(items) + (Comma(extra && items.Item?) + (tail + "]")))
    case Obj(members, extra, tail) => "{" + (PrintMembers(members) + (Comma(extra && members.Member?) + (tail + "}")))
  }

  function PrintItems(items: Items): string {
    match items
    case NoItem => ""
    case Item(before, value, after, rest) => before + (Print(value) + (after + (Comma(rest.Item?) + PrintItems(rest))))
  }

  function PrintMembers(members: Members): string {
    match members
    case NoMember => ""
    case Member(before, key, mid, gap, value, after, rest) =>
      before + (PrintString(key) + (mid + (":"
        + (gap + (Print(value) + (after + (Comma(rest.Member?) + PrintMembers(rest))))))))
  }
}
