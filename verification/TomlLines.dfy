/** Documents as they are written in TOML: lines with `key = value`, and headers of tables. */
module TomlLines {
  import opened Options
  import opened TomlSpelling

  /** A key on a path, with blanks around it. */
  datatype Name = Name(before: string, key: string, behind: string)

  /**
   `a.b.key = value`, where `path` is what stands in front of the last key, or `[a.b.name]`, with two brackets if
   `isList`.
   */
  datatype Statement =
    | Pair(path: seq<Name>, entry: Entry)
    | Header(path: seq<Name>, last: Name, isList: bool, behind: string)

  /** A line behind a gap. Its end, or a comment with it, may be missing in the last line. */
  datatype Written = Written(before: seq<Piece>, stmt: Statement, end: Option<Piece>)

  function NameTo(x: Name, rest: string): string {
    x.before + (x.key + (x.behind + rest))
  }

  function PathTo(path: seq<Name>, rest: string): string {
    if path == [] then rest else NameTo(path[0], "." + PathTo(path[1..], rest))
  }

  function StmtTo(stmt: Statement, rest: string): string {
    match stmt
    case Pair(path, e) => PathTo(path, EntryTo(e, rest))
    case Header(path, last, isList, behind) =>
      if isList then "[[" + PathTo(path, NameTo(last, "]]" + (behind + rest)))
      else "[" + PathTo(path, NameTo(last, "]" + (behind + rest)))
  }

  function EndTo(end: Option<Piece>, rest: string): string {
    match end
    case None => rest
    case Some(p) => PieceText(p) + rest
  }

  function LinesTo(lines: seq<Written>, close: seq<Piece>): string {
    if lines == [] then GapTo(close, "")
    else GapTo(lines[0].before, StmtTo(lines[0].stmt, EndTo(lines[0].end, LinesTo(lines[1..], close))))
  }

  ghost predicate NameOk(x: Name) {
    Whites(x.before) && Whites(x.behind) && IsWord(x.key, false)
  }

  ghost predicate PathOk(path: seq<Name>) {
    forall i :: 0 <= i < |path| ==> NameOk(path[i])
  }

  /** At most ten keys are read in a header. */
  ghost predicate StmtOk(stmt: Statement) {
    match stmt
    case Pair(path, e) => PathOk(path) && EntryOk(e)
    case Header(path, last, _, behind) => PathOk(path) && NameOk(last) && Whites(behind) && |path| < 10
  }

  predicate EndOk(end: Option<Piece>, rest: string) {
    match end
    case None => rest == ""
    case Some(p) => PieceOk(p) && !p.White?
  }

  ghost predicate LinesOk(lines: seq<Written>, close: seq<Piece>) {
    && GapOk(close)
    && forall i :: 0 <= i < |lines| ==>
         GapOk(lines[i].before) && StmtOk(lines[i].stmt) && EndOk(lines[i].end, LinesTo(lines[i + 1..], close))
  }
}
