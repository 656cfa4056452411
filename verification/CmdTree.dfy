/** Command trees and the two ways of writing them as text. */
module CmdTree {
  import opened CmdLexer

  datatype FileKind = Input | Output | AppendTo

  /** A standard handle. */
  type Fd = d: int | 0 <= d <= 2

  datatype Redir =
    | File(kind: FileKind, dest: Fd, target: string)
    | Dup(dest: Fd, source: Fd)

  datatype Op = Sequence | Or | And | PipeTo

  datatype Node =
    | Simple(text: string, quiet: bool, redirs: seq<Redir>)
    | Group(child: Node, quiet: bool, redirs: seq<Redir>)
    | Binary(op: Op, left: Node, right: Node, quiet: bool, redirs: seq<Redir>)

  function DefaultFd(k: FileKind): Fd {
    if k.Input? then 0 else 1
  }

  function Digit(d: Fd): char {
    if d == 0 then '0' else if d == 1 then '1' else '2'
  }

  /** The redirection is written with its descriptor in front. */
  predicate Explicit(r: Redir) {
    r.Dup? || r.dest != DefaultFd(r.kind)
  }

  function KindText(k: FileKind): string {
    match k case Input => "<" case Output => ">" case AppendTo => ">>"
  }

  function OpText(op: Op): string {
    match op case Sequence => " & " case Or => " || " case And => " && " case PipeTo => " | "
  }

  predicate HasBlank(s: string) {
    ' ' in s || '\t' in s
  }

  /** Targets with blanks are written inside quotes. */
  function TargetText(target: string): string {
    if HasBlank(target) then "\"" + target + "\"" else target
  }

  function FdText(r: Redir): string {
    if Explicit(r) then [Digit(r.dest)] else ""
  }

  function RedirText(r: Redir): string {
    match r
    case File(k, _, target) => " " + FdText(r) + KindText(k) + " " + target
    case Dup(_, source) => " " + FdText(r) + ">&" + [Digit(source)]
  }

  function RedirsText(rs: seq<Redir>): string {
    if rs == [] then "" else RedirText(rs[0]) + RedirsText(rs[1..])
  }

  function QuietText(q: bool): string {
    if q then "@" else ""
  }

  /** What the shell writes into a worker's command line: every binary node in parentheses. */
  function Render(n: Node): string {
    QuietText(n.quiet) +
    (match n
     case Simple(text, _, _) => text
     case Group(c, _, _) => "(" + Render(c) + ")"
     case Binary(op, l, r, _, _) => "(" + Render(l) + OpText(op) + Render(r) + ")") +
    RedirsText(CanonRedirs(n.redirs))
  }

  /** The same notation without any parentheses that are not in the tree. */
  function Print(n: Node): string {
    match n
    case Simple(text, q, rs) => QuietText(q) + text + RedirsText(rs)
    case Group(c, q, rs) => QuietText(q) + "(" + Print(c) + ")" + RedirsText(rs)
    case Binary(op, l, r, _, _) => Print(l) + OpText(op) + Print(r)
  }

  // ---- shape ------------------------------------------------------------------

  /** Precedence: `&` binds loosest, then `||`, `&&` and `|`; commands and groups are atoms. */
  function OpLevel(op: Op): nat {
    match op case Sequence => 0 case Or => 1 case And => 2 case PipeTo => 3
  }

  function Level(n: Node): nat {
    if n.Binary? then OpLevel(n.op) else 4
  }

  /** The derivation trees of the grammar: operators associate to the left, and only a
      group may stand where a looser operator would. */
  predicate Ladder(n: Node) {
    match n
    case Simple(_, _, _) => true
    case Group(c, _, _) => Ladder(c)
    case Binary(op, l, r, q, rs) =>
      !q && rs == [] && Ladder(l) && Ladder(r) && Level(l) >= OpLevel(op) && Level(r) > OpLevel(op)
  }

  /** Binary nodes carry neither `@` nor redirections, as in every tree the parser builds. */
  predicate PlainBinaries(n: Node) {
    match n
    case Simple(_, _, _) => true
    case Group(c, _, _) => PlainBinaries(c)
    case Binary(_, l, r, q, rs) => !q && rs == [] && PlainBinaries(l) && PlainBinaries(r)
  }

  function CanonRedirs(rs: seq<Redir>): (r: seq<Redir>)
    ensures |r| == |rs|
  {
    if rs == [] then []
    else [if rs[0].File? then rs[0].(target := TargetText(rs[0].target)) else rs[0]] + CanonRedirs(rs[1..])
  }

  /** The tree that rendering denotes: each binary node inside a plain group, and targets
      with blanks inside quotes. */
  function Canon(n: Node): Node {
    match n
    case Simple(text, q, rs) => Simple(text, q, CanonRedirs(rs))
    case Group(c, q, rs) => Group(Canon(c), q, CanonRedirs(rs))
    case Binary(op, l, r, q, rs) => Group(Binary(op, Canon(l), Canon(r), false, []), q, CanonRedirs(rs))
  }

  /** The file a target names: leading blanks and one enclosing pair of quotes are dropped. */
  function FileName(target: string): string {
    var t := TrimLeft(target);
    if |t| >= 2 && t[0] == '"' && t[|t| - 1] == '"' then t[1..|t| - 1] else t
  }

  function TrimLeft(s: string): string {
    if s != [] && IsBlank(s[0]) then TrimLeft(s[1..]) else s
  }

  function NamedRedirs(rs: seq<Redir>): (r: seq<Redir>)
    ensures |r| == |rs|
  {
    if rs == [] then []
    else [if rs[0].File? then rs[0].(target := FileName(rs[0].target)) else rs[0]] + NamedRedirs(rs[1..])
  }

  /** What a tree asks the shell to do: plain groups (no `@`, no redirections) only repeat
      the structure of the tree, and targets stand for the files they name. */
  function Meaning(n: Node): Node {
    match n
    case Simple(text, q, rs) => Simple(text, q, NamedRedirs(rs))
    case Group(c, q, rs) => if !q && rs == [] then Meaning(c) else Group(Meaning(c), q, NamedRedirs(rs))
    case Binary(op, l, r, q, rs) => Binary(op, Meaning(l), Meaning(r), q, NamedRedirs(rs))
  }
}
